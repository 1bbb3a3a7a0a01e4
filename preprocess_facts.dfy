/**
 * What a run of `preprocess_and_split` leaves on disk: which files each
 * image produces, where labels go, that only training images are
 * augmented, and how many JPEGs a split directory ends up holding.
 */
module PreprocessFacts {
  import opened Wrappers
  import PyStr
  import opened Layout
  import opened Splitting
  import opened Collect
  import opened Preprocess
  import Augmentation

  /** Iteration `k < n` of the augmentation loop writes variant `k` and then its label. */
  lemma {:induction false} VariantWritesContain(src: Source, classId: int, outputDir: seq<string>, n: nat)
    ensures |VariantWrites(src, classId, outputDir, n)| == 2 * n
    ensures forall k :: 0 <= k < n ==>
      && Write(VariantImage(src, outputDir, k), Jpeg(src, Some(k))) in VariantWrites(src, classId, outputDir, n)
      && Write(VariantLabel(src, outputDir, k), FullImageLabel(classId)) in VariantWrites(src, classId, outputDir, n)
  {
    if n > 0 {
      VariantWritesContain(src, classId, outputDir, n - 1);
      var prev := VariantWrites(src, classId, outputDir, n - 1);
      var w1 := Write(VariantImage(src, outputDir, n - 1), Jpeg(src, Some(n - 1)));
      var w2 := Write(VariantLabel(src, outputDir, n - 1), FullImageLabel(classId));
      var ws := VariantWrites(src, classId, outputDir, n);
      assert ws == prev + [w1, w2];
      forall k | 0 <= k < n - 1
        ensures Write(VariantImage(src, outputDir, k), Jpeg(src, Some(k))) in ws
        ensures Write(VariantLabel(src, outputDir, k), FullImageLabel(classId)) in ws
      {
        assert Write(VariantImage(src, outputDir, k), Jpeg(src, Some(k))) in prev;
        assert Write(VariantLabel(src, outputDir, k), FullImageLabel(classId)) in prev;
      }
      assert ws[|prev|] == w1 && ws[|prev| + 1] == w2;
    }
  }

  /**
   * A loadable image gets its copy and its full-image label, and, when its
   * split is augmented and the pipeline can be built, all `aug_factor - 1`
   * variants; an image that cannot be opened gets nothing.
   */
  lemma ImageWritesContain(cfg: Settings, s: Split, src: Source, classId: int)
    ensures !src.loadable ==> ImageWrites(cfg, s, src, classId) == []
    ensures src.loadable ==>
      && Write(CopyPath(cfg, s, src), Jpeg(src, None)) in ImageWrites(cfg, s, src, classId)
      && Write(LabelFor(ImagesDir(cfg, s), CopyPath(cfg, s, src).name), FullImageLabel(classId)) in ImageWrites(cfg, s, src, classId)
    ensures src.loadable && Augments(cfg, s) && !Augmentation.PipelineRaises(cfg.augTransforms) ==>
      forall k :: 0 <= k < cfg.augFactor - 1 ==>
        Write(VariantImage(src, ImagesDir(cfg, s), k), Jpeg(src, Some(k))) in ImageWrites(cfg, s, src, classId)
  {
    if src.loadable {
      var d := ImagesDir(cfg, s);
      var head := [Write(CopyPath(cfg, s, src), Jpeg(src, None)), Write(LabelFor(d, CopyPath(cfg, s, src).name), FullImageLabel(classId))];
      var aug := if Augments(cfg, s) then AugmentWrites(cfg.augTransforms, src, classId, d, AugCount(cfg, s) - 1) else [];
      assert ImageWrites(cfg, s, src, classId) == head + aug;
      if Augments(cfg, s) && !Augmentation.PipelineRaises(cfg.augTransforms) {
        VariantWritesContain(src, classId, d, cfg.augFactor - 1);
        assert aug == VariantWrites(src, classId, d, cfg.augFactor - 1);
      }
    }
  }

  /** The copies of the loadable images among `images`. */
  function Copies(cfg: Settings, s: Split, images: seq<Source>): set<Path>
  {
    set src | src in images && src.loadable :: CopyPath(cfg, s, src)
  }

  /** Every loadable image of a split gets its copy and a label holding the index of its class. */
  lemma {:induction false} SplitWritesContain(cfg: Settings, s: Split, images: seq<Source>)
    ensures forall src :: src in images && src.loadable ==>
      && Write(CopyPath(cfg, s, src), Jpeg(src, None)) in SplitWrites(cfg, s, images)
      && Write(LabelFor(ImagesDir(cfg, s), CopyPath(cfg, s, src).name), FullImageLabel(LastIndex(cfg.classes, src.classDir)))
           in SplitWrites(cfg, s, images)
    decreases |images|
  {
    if images != [] {
      var init, last := images[..|images| - 1], images[|images| - 1];
      var prev, mine := SplitWrites(cfg, s, init), ImageWrites(cfg, s, last, LastIndex(cfg.classes, last.classDir));
      SplitWritesContain(cfg, s, init);
      ImageWritesContain(cfg, s, last, LastIndex(cfg.classes, last.classDir));
      assert SplitWrites(cfg, s, images) == prev + mine;
      forall src | src in images && src.loadable
        ensures Write(CopyPath(cfg, s, src), Jpeg(src, None)) in prev + mine
        ensures Write(LabelFor(ImagesDir(cfg, s), CopyPath(cfg, s, src).name), FullImageLabel(LastIndex(cfg.classes, src.classDir))) in prev + mine
      {
        if src != last {
          var k :| 0 <= k < |images| && images[k] == src;
          assert init[k] == src;
        }
      }
    }
  }

  /** The label of an accepted image file is `<processed>/images/labels/<stem>.txt`. */
  lemma LabelNamedAfterImage(cfg: Settings, s: Split, src: Source)
    requires IsImageFile(src.name)
    ensures LabelFor(ImagesDir(cfg, s), CopyPath(cfg, s, src).name) == Path(LabelsDir(cfg), PyStr.Stem(src.name) + ".txt")
  {
    ImageStemNonEmpty(src.name);
    PyStr.StemWithExtension(PyStr.Stem(src.name), ".jpg");
    LabelsShared(cfg, s, CopyPath(cfg, s, src).name);
  }

  /**
   * Without augmentation, the JPEGs of a split directory after its image
   * loop are the ones it held before plus one copy per loadable image.
   */
  lemma SplitJpegs(cfg: Settings, s: Split, images: seq<Source>, fs0: FileSystem)
    requires !Augments(cfg, s)
    ensures JpegsIn(ApplyWrites(fs0, SplitWrites(cfg, s, images)), ImagesDir(cfg, s))
      == JpegsIn(fs0, ImagesDir(cfg, s)) + Copies(cfg, s, images)
  {
    NewJpegsAreCopies(cfg, s, images, fs0);
    CopiesAreJpegs(cfg, s, images, fs0);
  }

  /** Without augmentation, a JPEG that appears in the split directory during its loop is a copy of a loadable image. */
  lemma NewJpegsAreCopies(cfg: Settings, s: Split, images: seq<Source>, fs0: FileSystem)
    requires !Augments(cfg, s)
    ensures JpegsIn(ApplyWrites(fs0, SplitWrites(cfg, s, images)), ImagesDir(cfg, s))
      <= JpegsIn(fs0, ImagesDir(cfg, s)) + Copies(cfg, s, images)
  {
    var ws := SplitWrites(cfg, s, images);
    var fs := ApplyWrites(fs0, ws);
    var d := ImagesDir(cfg, s);
    ApplyKeys(fs0, ws);
    SplitWritesOnly(cfg, s, images);
    SplitDirsDiffer(cfg, s, s);
    forall p | p in JpegsIn(fs, d) && p !in JpegsIn(fs0, d)
      ensures p in Copies(cfg, s, images)
    {
      assert p !in fs0.Keys;
      assert p in Targets(ws);
      var w :| w in ws && w.path == p;
      assert w.path.dir == d;
      assert !w.content.LabelFile?;
      assert w.path == CopyPath(cfg, s, w.content.source);
    }
  }

  /** A copy written during the split's loop is listed among the split's JPEGs. */
  lemma CopiesAreJpegs(cfg: Settings, s: Split, images: seq<Source>, fs0: FileSystem)
    ensures JpegsIn(fs0, ImagesDir(cfg, s)) + Copies(cfg, s, images)
      <= JpegsIn(ApplyWrites(fs0, SplitWrites(cfg, s, images)), ImagesDir(cfg, s))
  {
    var ws := SplitWrites(cfg, s, images);
    var fs := ApplyWrites(fs0, ws);
    var d := ImagesDir(cfg, s);
    ApplyKeys(fs0, ws);
    SplitWritesContain(cfg, s, images);
    forall src | src in images && src.loadable
      ensures CopyPath(cfg, s, src) in JpegsIn(fs, d)
    {
      var p := CopyPath(cfg, s, src);
      assert Write(p, Jpeg(src, None)) in ws;
      assert p in Targets(ws);
      assert p.name[|p.name| - 4..] == ".jpg";
    }
  }

  /** Adding the same suffix to different stems gives different names. */
  lemma SuffixInjective(a: string, b: string, ext: string)
    requires a + ext == b + ext
    ensures a == b
  {
    assert a == (a + ext)[..|a|];
    assert b == (b + ext)[..|b|];
    assert |a| == |b|;
  }

  /** The stems of the loadable images among `images`. */
  function LoadableStems(images: seq<Source>): set<string>
  {
    set src | src in images && src.loadable :: PyStr.Stem(src.name)
  }

  /** One `<stem>.jpg` path per stem. */
  function JpegNames(d: seq<string>, stems: set<string>): set<Path>
  {
    set t | t in stems :: Path(d, t + ".jpg")
  }

  /** Distinct stems give distinct JPEG paths, so there are as many paths as stems. */
  lemma {:induction false} JpegNamesCount(d: seq<string>, stems: set<string>)
    ensures |JpegNames(d, stems)| == |stems|
    decreases |stems|
  {
    if stems != {} {
      var t :| t in stems;
      var rest := stems - {t};
      JpegNamesCount(d, rest);
      assert JpegNames(d, stems) == JpegNames(d, rest) + {Path(d, t + ".jpg")};
      if Path(d, t + ".jpg") in JpegNames(d, rest) {
        var u :| u in rest && Path(d, u + ".jpg") == Path(d, t + ".jpg");
        SuffixInjective(u, t, ".jpg");
      }
    }
  }

  /** The copies of a split are one JPEG per distinct stem of its loadable images. */
  lemma CopiesCount(cfg: Settings, s: Split, images: seq<Source>)
    ensures |Copies(cfg, s, images)| == |LoadableStems(images)|
  {
    assert Copies(cfg, s, images) == JpegNames(ImagesDir(cfg, s), LoadableStems(images));
    JpegNamesCount(ImagesDir(cfg, s), LoadableStems(images));
  }

  /**
   * Without augmentation and starting from a split directory with no JPEGs,
   * the count the run reports for the split is the number of distinct stems
   * among its loadable images: images whose stems coincide (the same file
   * name in two class folders, say) overwrite each other.
   */
  lemma SplitCountIsStems(cfg: Settings, s: Split, images: seq<Source>, fs0: FileSystem)
    requires !Augments(cfg, s)
    requires JpegsIn(fs0, ImagesDir(cfg, s)) == {}
    ensures |JpegsIn(ApplyWrites(fs0, SplitWrites(cfg, s, images)), ImagesDir(cfg, s))| == |LoadableStems(images)|
  {
    SplitJpegs(cfg, s, images, fs0);
    CopiesCount(cfg, s, images);
  }

  /**
   * With no two loadable images of a split sharing a stem and no
   * augmentation, each copy holds its own image once the loop is over.
   */
  lemma CopyKept(cfg: Settings, s: Split, images: seq<Source>, src: Source, fs0: FileSystem)
    requires !Augments(cfg, s)
    requires src in images && src.loadable
    requires forall a, b :: a in images && b in images && a.loadable && b.loadable && PyStr.Stem(a.name) == PyStr.Stem(b.name) ==> a == b
    ensures var fs := ApplyWrites(fs0, SplitWrites(cfg, s, images));
      CopyPath(cfg, s, src) in fs && fs[CopyPath(cfg, s, src)] == Jpeg(src, None)
  {
    var ws := SplitWrites(cfg, s, images);
    var p := CopyPath(cfg, s, src);
    SplitWritesContain(cfg, s, images);
    SplitWritesOnly(cfg, s, images);
    SplitDirsDiffer(cfg, s, s);
    forall w | w in ws && w.path == p
      ensures w.content == Jpeg(src, None)
    {
      assert !w.content.LabelFile?;
      var other := w.content.source;
      SuffixInjective(PyStr.Stem(other.name), PyStr.Stem(src.name), ".jpg");
    }
    ApplyAgreeing(fs0, ws, p, Jpeg(src, None));
  }

  /**
   * Two loadable images of an unaugmented split with the same stem (the
   * same file name in two class folders, say) leave a single JPEG, and it
   * holds the later image.
   */
  lemma SameStemLaterWins(cfg: Settings, s: Split, a: Source, b: Source, fs0: FileSystem)
    requires !Augments(cfg, s)
    requires a.loadable && b.loadable && PyStr.Stem(a.name) == PyStr.Stem(b.name)
    requires JpegsIn(fs0, ImagesDir(cfg, s)) == {}
    ensures var fs := ApplyWrites(fs0, SplitWrites(cfg, s, [a, b]));
      && |JpegsIn(fs, ImagesDir(cfg, s))| == 1
      && CopyPath(cfg, s, a) in fs && fs[CopyPath(cfg, s, a)] == Jpeg(b, None)
  {
    assert LoadableStems([a, b]) == {PyStr.Stem(a.name)};
    SplitCountIsStems(cfg, s, [a, b], fs0);
    LaterCopyWins(cfg, s, a, b, fs0);
  }

  /** The second of two images with the same stem overwrites the copy of the first. */
  lemma LaterCopyWins(cfg: Settings, s: Split, a: Source, b: Source, fs0: FileSystem)
    requires !Augments(cfg, s)
    requires b.loadable && PyStr.Stem(a.name) == PyStr.Stem(b.name)
    ensures var fs := ApplyWrites(fs0, SplitWrites(cfg, s, [a, b]));
      CopyPath(cfg, s, a) in fs && fs[CopyPath(cfg, s, a)] == Jpeg(b, None)
  {
    var first := SplitWrites(cfg, s, [a]);
    var mine := ImageWrites(cfg, s, b, LastIndex(cfg.classes, b.classDir));
    assert [a, b][..1] == [a];
    assert SplitWrites(cfg, s, [a, b]) == first + mine;
    ApplyAppend(fs0, first, mine);
    var copy := Write(CopyPath(cfg, s, b), Jpeg(b, None));
    var lbl := Write(LabelFor(ImagesDir(cfg, s), CopyPath(cfg, s, b).name), FullImageLabel(LastIndex(cfg.classes, b.classDir)));
    assert mine == [copy] + [lbl];
    LabelsShared(cfg, s, CopyPath(cfg, s, b).name);
    SplitDirsDiffer(cfg, s, s);
    ApplyOneMore(ApplyWrites(fs0, first), [copy], lbl);
    ApplyOneMore(ApplyWrites(fs0, first), [], copy);
    assert [] + [copy] == [copy];
  }

  /** Two files named `img1.jpg` in the `cat` and `dog` folders of the validation split leave one JPEG, the dog's. */
  lemma SameNameAcrossClasses(cfg: Settings, fs0: FileSystem)
    requires JpegsIn(fs0, ImagesDir(cfg, Val)) == {}
    ensures var cat, dog := Source("cat", "img1.jpg", true), Source("dog", "img1.jpg", true);
      var fs := ApplyWrites(fs0, SplitWrites(cfg, Val, [cat, dog]));
      && |JpegsIn(fs, ImagesDir(cfg, Val))| == 1
      && CopyPath(cfg, Val, cat) in fs && fs[CopyPath(cfg, Val, cat)] == Jpeg(dog, None)
  {
    SameStemLaterWins(cfg, Val, Source("cat", "img1.jpg", true), Source("dog", "img1.jpg", true), fs0);
  }

  /**
   * After the first `k` splits of a run, the JPEGs of split `SplitOrder[j]`
   * (unaugmented) are the ones it held before plus, once it has been
   * processed, the copies of its loadable images; the other splits never
   * write into it.
   */
  lemma {:induction false} RunJpegs(cfg: Settings, parts: Parts<Source>, k: nat, j: nat, fs0: FileSystem)
    requires k <= |SplitOrder| && j < |SplitOrder|
    requires !Augments(cfg, SplitOrder[j])
    ensures var d := ImagesDir(cfg, SplitOrder[j]);
      JpegsIn(ApplyWrites(fs0, RunWrites(cfg, parts, k)), d)
      == if j < k then JpegsIn(fs0, d) + Copies(cfg, SplitOrder[j], PartOf(parts, SplitOrder[j])) else JpegsIn(fs0, d)
  {
    if k > 0 {
      var s, t := SplitOrder[k - 1], SplitOrder[j];
      var d := ImagesDir(cfg, t);
      var prev := RunWrites(cfg, parts, k - 1);
      var mine := SplitWrites(cfg, s, PartOf(parts, s));
      var mid := ApplyWrites(fs0, prev);
      RunJpegs(cfg, parts, k - 1, j, fs0);
      assert RunWrites(cfg, parts, k) == prev + mine;
      ApplyAppend(fs0, prev, mine);
      if j == k - 1 {
        SplitJpegs(cfg, s, PartOf(parts, s), mid);
      } else {
        SplitStaysOut(cfg, s, t, PartOf(parts, s), mid);
      }
    }
  }

  /** Processing split `s` leaves the JPEG listing of any other split as it was. */
  lemma SplitStaysOut(cfg: Settings, s: Split, t: Split, images: seq<Source>, fs: FileSystem)
    requires s != t
    ensures JpegsIn(ApplyWrites(fs, SplitWrites(cfg, s, images)), ImagesDir(cfg, t)) == JpegsIn(fs, ImagesDir(cfg, t))
  {
    SplitWritesDirs(cfg, s, images);
    SplitDirsDiffer(cfg, s, t);
    SplitDirsDiffer(cfg, t, t);
    JpegsUntouched(fs, SplitWrites(cfg, s, images), ImagesDir(cfg, t));
  }

  /**
   * The count `preprocess_and_split` reports for an unaugmented split whose
   * directory held no JPEGs is the number of distinct stems among the
   * loadable images the split received.
   */
  lemma ReportedCountIsStems(cfg: Settings, shuffled: seq<Source>, s: Split, fs0: FileSystem)
    requires !Augments(cfg, s)
    requires JpegsIn(fs0, ImagesDir(cfg, s)) == {}
    ensures |JpegsIn(ApplyWrites(fs0, AllWrites(cfg, shuffled)), ImagesDir(cfg, s))| == |LoadableStems(PartOf(Cut(cfg, shuffled), s))|
  {
    var j := if s == Train then 0 else if s == Val then 1 else 2;
    assert SplitOrder[j] == s;
    RunJpegs(cfg, Cut(cfg, shuffled), |SplitOrder|, j, fs0);
    CopiesCount(cfg, s, PartOf(Cut(cfg, shuffled), s));
  }

  // ---------------------------------------------------------------------
  // Images and their labels after a whole run
  // ---------------------------------------------------------------------

  /** `<processed>/images/labels/<stem>.txt`: the label file of the output image at `p`. */
  function LabelOf(cfg: Settings, p: Path): Path
  {
    Path(LabelsDir(cfg), PyStr.Stem(p.name) + ".txt")
  }

  /** Every variant image the augmentation loop writes has its full-image label, named after the variant's stem. */
  lemma VariantJpegsLabelled(src: Source, classId: int, outputDir: seq<string>, n: nat)
    ensures forall w :: w in VariantWrites(src, classId, outputDir, n) && w.content.Jpeg? ==>
      Write(Path(Parent(outputDir) + ["labels"], PyStr.Stem(w.path.name) + ".txt"), FullImageLabel(classId))
        in VariantWrites(src, classId, outputDir, n)
  {
    VariantWritesOnly(src, classId, outputDir, n);
    VariantWritesContain(src, classId, outputDir, n);
    forall w | w in VariantWrites(src, classId, outputDir, n) && w.content.Jpeg?
      ensures PyStr.Stem(w.path.name) == VariantStem(src, w.content.variant.value)
    {
      PyStr.StemWithExtension(VariantStem(src, w.content.variant.value), ".jpg");
    }
  }

  /** Every JPEG written for an image, copy or variant, has a label of the image's class named after its stem. */
  lemma ImageJpegsLabelled(cfg: Settings, s: Split, src: Source, classId: int)
    ensures forall w :: w in ImageWrites(cfg, s, src, classId) && w.content.Jpeg? ==>
      Write(LabelOf(cfg, w.path), FullImageLabel(classId)) in ImageWrites(cfg, s, src, classId)
  {
    if src.loadable {
      var d := ImagesDir(cfg, s);
      var copy := Write(CopyPath(cfg, s, src), Jpeg(src, None));
      var lbl := Write(LabelFor(d, CopyPath(cfg, s, src).name), FullImageLabel(classId));
      var aug := if Augments(cfg, s) then AugmentWrites(cfg.augTransforms, src, classId, d, AugCount(cfg, s) - 1) else [];
      assert ImageWrites(cfg, s, src, classId) == [copy, lbl] + aug;
      assert Parent(d) + ["labels"] == LabelsDir(cfg);
      assert lbl.path == LabelOf(cfg, copy.path);
      if Augments(cfg, s) && !Augmentation.PipelineRaises(cfg.augTransforms) {
        VariantJpegsLabelled(src, classId, d, cfg.augFactor - 1);
        assert aug == VariantWrites(src, classId, d, cfg.augFactor - 1);
      } else {
        assert aug == [];
      }
    }
  }

  /** Every JPEG a split's loop writes has a label holding its source's class index, named after its stem. */
  lemma {:induction false} SplitJpegsLabelled(cfg: Settings, s: Split, images: seq<Source>)
    ensures forall w :: w in SplitWrites(cfg, s, images) && w.content.Jpeg? ==>
      Write(LabelOf(cfg, w.path), FullImageLabel(LastIndex(cfg.classes, w.content.source.classDir))) in SplitWrites(cfg, s, images)
    decreases |images|
  {
    if images != [] {
      var init, last := images[..|images| - 1], images[|images| - 1];
      var id := LastIndex(cfg.classes, last.classDir);
      var prev, mine := SplitWrites(cfg, s, init), ImageWrites(cfg, s, last, id);
      SplitJpegsLabelled(cfg, s, init);
      ImageJpegsLabelled(cfg, s, last, id);
      ImageWritesOnly(cfg, s, last, id);
      assert SplitWrites(cfg, s, images) == prev + mine;
    }
  }

  /** The same for the first `k` splits of a run. */
  lemma {:induction false} RunJpegsLabelled(cfg: Settings, parts: Parts<Source>, k: nat)
    requires k <= |SplitOrder|
    ensures forall w :: w in RunWrites(cfg, parts, k) && w.content.Jpeg? ==>
      Write(LabelOf(cfg, w.path), FullImageLabel(LastIndex(cfg.classes, w.content.source.classDir))) in RunWrites(cfg, parts, k)
  {
    if k > 0 {
      var s := SplitOrder[k - 1];
      RunJpegsLabelled(cfg, parts, k - 1);
      SplitJpegsLabelled(cfg, s, PartOf(parts, s));
      assert RunWrites(cfg, parts, k) == RunWrites(cfg, parts, k - 1) + SplitWrites(cfg, s, PartOf(parts, s));
    }
  }

  /** In a run, exactly the label files go to the labels directory, and each is a one-line full-image label. */
  lemma {:induction false} RunWritesDirs(cfg: Settings, parts: Parts<Source>, k: nat)
    requires k <= |SplitOrder|
    ensures forall w :: w in RunWrites(cfg, parts, k) ==>
      && (w.path.dir == LabelsDir(cfg) <==> w.content.LabelFile?)
      && (w.content.LabelFile? ==> exists c :: w.content == FullImageLabel(c))
  {
    if k > 0 {
      var s := SplitOrder[k - 1];
      RunWritesDirs(cfg, parts, k - 1);
      SplitWritesOnly(cfg, s, PartOf(parts, s));
      SplitDirsDiffer(cfg, s, s);
      assert RunWrites(cfg, parts, k) == RunWrites(cfg, parts, k - 1) + SplitWrites(cfg, s, PartOf(parts, s));
      forall w | w in SplitWrites(cfg, s, PartOf(parts, s)) && w.content.LabelFile?
        ensures exists c :: w.content == FullImageLabel(c)
      {
        var src :| src in PartOf(parts, s) && w.content == FullImageLabel(LastIndex(cfg.classes, src.classDir));
      }
    }
  }

  /** A split's writes are among the writes of any run prefix that has processed that split. */
  lemma {:induction false} RunWritesInclude(cfg: Settings, parts: Parts<Source>, k: nat, j: nat)
    requires j < k <= |SplitOrder|
    ensures forall w :: w in SplitWrites(cfg, SplitOrder[j], PartOf(parts, SplitOrder[j])) ==> w in RunWrites(cfg, parts, k)
  {
    var s := SplitOrder[k - 1];
    assert RunWrites(cfg, parts, k) == RunWrites(cfg, parts, k - 1) + SplitWrites(cfg, s, PartOf(parts, s));
    if j < k - 1 {
      RunWritesInclude(cfg, parts, k - 1, j);
    }
  }

  /**
   * Every JPEG the run leaves changed or new has, after the run, a label file
   * `<processed>/images/labels/<stem>.txt` holding one full-image line.
   */
  lemma WrittenJpegsLabelled(cfg: Settings, shuffled: seq<Source>, fs0: FileSystem, p: Path)
    requires var after := ApplyWrites(fs0, AllWrites(cfg, shuffled));
      p in after && after[p].Jpeg? && (p !in fs0 || after[p] != fs0[p])
    ensures var after := ApplyWrites(fs0, AllWrites(cfg, shuffled));
      LabelOf(cfg, p) in after && exists c :: after[LabelOf(cfg, p)] == FullImageLabel(c)
  {
    var parts := Cut(cfg, shuffled);
    var ws := AllWrites(cfg, shuffled);
    var after := ApplyWrites(fs0, ws);
    ApplySource(fs0, ws, p);
    var w :| w in ws && w.path == p && w.content == after[p];
    RunJpegsLabelled(cfg, parts, |SplitOrder|);
    RunWritesDirs(cfg, parts, |SplitOrder|);
    assert Write(LabelOf(cfg, p), FullImageLabel(LastIndex(cfg.classes, w.content.source.classDir))) in ws;
    ApplyLastWrite(fs0, ws, LabelOf(cfg, p));
    var v :| v in ws && v.path == LabelOf(cfg, p) && v.content == after[LabelOf(cfg, p)];
  }

  /**
   * Every loadable image of a split leaves, after the whole run, a JPEG at
   * `<split>/<stem>.jpg` and a one-line full-image label at
   * `<processed>/images/labels/<stem>.txt`. Either may come from another
   * image with the same stem written later.
   */
  lemma LoadableImageKept(cfg: Settings, shuffled: seq<Source>, fs0: FileSystem, j: nat, src: Source)
    requires j < |SplitOrder| && src in PartOf(Cut(cfg, shuffled), SplitOrder[j]) && src.loadable
    ensures var after := ApplyWrites(fs0, AllWrites(cfg, shuffled));
      var copy := CopyPath(cfg, SplitOrder[j], src);
      && copy in after && after[copy].Jpeg?
      && LabelOf(cfg, copy) in after && (exists c :: after[LabelOf(cfg, copy)] == FullImageLabel(c))
    ensures IsImageFile(src.name) ==>
      LabelOf(cfg, CopyPath(cfg, SplitOrder[j], src)) == Path(LabelsDir(cfg), PyStr.Stem(src.name) + ".txt")
  {
    var s := SplitOrder[j];
    var parts := Cut(cfg, shuffled);
    var ws := AllWrites(cfg, shuffled);
    var after := ApplyWrites(fs0, ws);
    var copy := CopyPath(cfg, s, src);
    SplitWritesContain(cfg, s, PartOf(parts, s));
    RunWritesInclude(cfg, parts, |SplitOrder|, j);
    RunWritesDirs(cfg, parts, |SplitOrder|);
    SplitDirsDiffer(cfg, s, s);
    assert Write(copy, Jpeg(src, None)) in ws;
    ApplyLastWrite(fs0, ws, copy);
    var v :| v in ws && v.path == copy && v.content == after[copy];
    WrittenLabelKept(cfg, shuffled, fs0, copy, src);
    if IsImageFile(src.name) {
      LabelNamedAfterImage(cfg, s, src);
    }
  }

  /** The label step of `LoadableImageKept`: the copy's label write survives as some full-image label. */
  lemma WrittenLabelKept(cfg: Settings, shuffled: seq<Source>, fs0: FileSystem, copy: Path, src: Source)
    requires Write(copy, Jpeg(src, None)) in AllWrites(cfg, shuffled)
    ensures var after := ApplyWrites(fs0, AllWrites(cfg, shuffled));
      LabelOf(cfg, copy) in after && exists c :: after[LabelOf(cfg, copy)] == FullImageLabel(c)
  {
    var parts := Cut(cfg, shuffled);
    var ws := AllWrites(cfg, shuffled);
    var after := ApplyWrites(fs0, ws);
    RunJpegsLabelled(cfg, parts, |SplitOrder|);
    RunWritesDirs(cfg, parts, |SplitOrder|);
    assert Write(LabelOf(cfg, copy), FullImageLabel(LastIndex(cfg.classes, src.classDir))) in ws;
    ApplyLastWrite(fs0, ws, LabelOf(cfg, copy));
    var v :| v in ws && v.path == LabelOf(cfg, copy) && v.content == after[LabelOf(cfg, copy)];
  }

  /** Without augmentation, a loadable image alone in its split gets its copy, then its label. */
  lemma OneImageSplit(cfg: Settings, s: Split, src: Source)
    requires !cfg.augEnabled && src.loadable
    ensures SplitWrites(cfg, s, [src]) ==
      [Write(CopyPath(cfg, s, src), Jpeg(src, None)), Write(LabelOf(cfg, CopyPath(cfg, s, src)), FullImageLabel(LastIndex(cfg.classes, src.classDir)))]
  {
    var d := ImagesDir(cfg, s);
    var id := LastIndex(cfg.classes, src.classDir);
    assert Parent(d) + ["labels"] == LabelsDir(cfg);
    assert !Augments(cfg, s);
    assert ImageWrites(cfg, s, src, id) == [Write(CopyPath(cfg, s, src), Jpeg(src, None)), Write(LabelFor(d, CopyPath(cfg, s, src).name), FullImageLabel(id))];
    assert [src][..0] == [];
    assert SplitWrites(cfg, s, [src]) == SplitWrites(cfg, s, []) + ImageWrites(cfg, s, src, id);
  }

  /** Without augmentation, a run over one training and one validation image writes each copy, then its label. */
  lemma TwoImageRun(cfg: Settings, a: Source, b: Source)
    requires !cfg.augEnabled && a.loadable && b.loadable && PyStr.Stem(a.name) == PyStr.Stem(b.name)
    ensures RunWrites(cfg, Parts([a], [b], []), |SplitOrder|) ==
      [ Write(CopyPath(cfg, Train, a), Jpeg(a, None)),
        Write(LabelOf(cfg, CopyPath(cfg, Train, a)), FullImageLabel(LastIndex(cfg.classes, a.classDir))),
        Write(CopyPath(cfg, Val, b), Jpeg(b, None)),
        Write(LabelOf(cfg, CopyPath(cfg, Train, a)), FullImageLabel(LastIndex(cfg.classes, b.classDir))) ]
  {
    var parts := Parts([a], [b], []);
    OneImageSplit(cfg, Train, a);
    OneImageSplit(cfg, Val, b);
    assert LabelOf(cfg, CopyPath(cfg, Val, b)) == LabelOf(cfg, CopyPath(cfg, Train, a));
    assert RunWrites(cfg, parts, 1) == SplitWrites(cfg, Train, [a]);
    assert RunWrites(cfg, parts, 2) == RunWrites(cfg, parts, 1) + SplitWrites(cfg, Val, [b]);
    assert RunWrites(cfg, parts, 3) == RunWrites(cfg, parts, 2) + SplitWrites(cfg, Test, []);
  }

  /**
   * The labels directory is shared by the splits: a training image and a
   * validation image with the same stem have one label file, and after the
   * run it holds the validation image's class, while the training copy stays.
   */
  lemma LabelSharedAcrossSplits(cfg: Settings, a: Source, b: Source, fs0: FileSystem)
    requires !cfg.augEnabled && a.loadable && b.loadable && PyStr.Stem(a.name) == PyStr.Stem(b.name)
    ensures var after := ApplyWrites(fs0, RunWrites(cfg, Parts([a], [b], []), |SplitOrder|));
      var copy := CopyPath(cfg, Train, a);
      && copy in after && after[copy] == Jpeg(a, None)
      && LabelOf(cfg, copy) in after && after[LabelOf(cfg, copy)] == FullImageLabel(LastIndex(cfg.classes, b.classDir))
  {
    TwoImageRun(cfg, a, b);
    var copyA := CopyPath(cfg, Train, a);
    var w1 := Write(copyA, Jpeg(a, None));
    var w2 := Write(LabelOf(cfg, copyA), FullImageLabel(LastIndex(cfg.classes, a.classDir)));
    var w3 := Write(CopyPath(cfg, Val, b), Jpeg(b, None));
    var w4 := Write(LabelOf(cfg, copyA), FullImageLabel(LastIndex(cfg.classes, b.classDir)));
    SplitDirsDiffer(cfg, Train, Val);
    SplitDirsDiffer(cfg, Train, Train);
    assert w3.path != copyA && w4.path != copyA;
    ApplyOneMore(fs0, [w1, w2, w3], w4);
    ApplyOneMore(fs0, [w1, w2], w3);
    ApplyOneMore(fs0, [w1], w2);
    ApplyOneMore(fs0, [], w1);
    assert [w1, w2, w3] + [w4] == [w1, w2, w3, w4];
    assert [w1, w2] + [w3] == [w1, w2, w3];
    assert [w1] + [w2] == [w1, w2];
  }
}
