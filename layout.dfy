/**
 * The on-disk dataset layout, abstracted: a file system is a map from path
 * to content, and a run is a sequence of file writes applied in order (a
 * later write to the same path overwrites an earlier one).
 */
module Layout {
  import opened Wrappers
  import PyStr

  /** A file path: its directory as a list of components, and its file name. */
  datatype Path = Path(dir: seq<string>, name: string)

  /** Whether a file name has one of the accepted image suffixes, compared lower-cased. */
  predicate IsImageFile(name: string)
  {
    PyStr.Lower(PyStr.Suffix(name)) in [".jpg", ".jpeg", ".png"]
  }

  /** An accepted image name has a non-empty stem. */
  lemma ImageStemNonEmpty(name: string)
    requires IsImageFile(name)
    ensures PyStr.Stem(name) != ""
  {
    PyStr.StemSuffix(name);
  }

  /** A normalized YOLO box: centre and size as fractions of the image size. */
  datatype NormBox = NormBox(cx: real, cy: real, w: real, h: real)

  /** One label line `<class_id> <cx> <cy> <w> <h>`; the number formatting is abstract. */
  datatype LabelLine = LabelLine(classId: int, box: NormBox)

  /**
   * A raw image `<raw_dir>/<classDir>/<name>`; `loadable` says whether PIL can
   * open and decode it.
   */
  datatype Source = Source(classDir: string, name: string, loadable: bool)

  /**
   * File contents: a JPEG re-encoding of a source image (`variant` is the
   * augmentation index, `None` for the plain copy), or a label file.
   */
  datatype Content =
    | Jpeg(source: Source, variant: Option<nat>)
    | LabelFile(lines: seq<LabelLine>)

  datatype Write = Write(path: Path, content: Content)

  type FileSystem = map<Path, Content>

  /** `fs` after performing the writes `ws` one after the other. */
  function ApplyWrites(fs: FileSystem, ws: seq<Write>): FileSystem
    decreases |ws|
  {
    if ws == [] then fs
    else ApplyWrites(fs, ws[..|ws| - 1])[ws[|ws| - 1].path := ws[|ws| - 1].content]
  }

  /** The paths `ws` writes to. */
  function Targets(ws: seq<Write>): set<Path>
  {
    set w | w in ws :: w.path
  }

  /** One more write at the end is one more map update. */
  lemma ApplyOneMore(fs: FileSystem, ws: seq<Write>, w: Write)
    ensures ApplyWrites(fs, ws + [w]) == ApplyWrites(fs, ws)[w.path := w.content]
  {
    assert (ws + [w])[..|ws|] == ws;
  }

  /** Performing `a + b` is performing `a`, then `b`. */
  lemma {:induction false} ApplyAppend(fs: FileSystem, a: seq<Write>, b: seq<Write>)
    ensures ApplyWrites(fs, a + b) == ApplyWrites(ApplyWrites(fs, a), b)
    decreases |b|
  {
    if b == [] {
      assert a + b == a;
    } else {
      var b' := b[..|b| - 1];
      assert (a + b)[..|a + b| - 1] == a + b';
      ApplyAppend(fs, a, b');
    }
  }

  /** The files after a run are the files before it plus every path written. */
  lemma {:induction false} ApplyKeys(fs: FileSystem, ws: seq<Write>)
    ensures ApplyWrites(fs, ws).Keys == fs.Keys + Targets(ws)
    decreases |ws|
  {
    if ws != [] {
      var init := ws[..|ws| - 1];
      ApplyKeys(fs, init);
      assert ws == init + [ws[|ws| - 1]];
      assert Targets(ws) == Targets(init) + {ws[|ws| - 1].path};
    }
  }

  /** A path no write names keeps its old content, or stays absent. */
  lemma {:induction false} ApplyUntouched(fs: FileSystem, ws: seq<Write>, p: Path)
    requires forall w :: w in ws ==> w.path != p
    ensures p in ApplyWrites(fs, ws) <==> p in fs
    ensures p in fs ==> ApplyWrites(fs, ws)[p] == fs[p]
    decreases |ws|
  {
    if ws != [] {
      ApplyUntouched(fs, ws[..|ws| - 1], p);
    }
  }

  /** A path whose content differs after the run was written, and holds what some write put there. */
  lemma {:induction false} ApplySource(fs: FileSystem, ws: seq<Write>, p: Path)
    requires p in ApplyWrites(fs, ws)
    requires p !in fs || ApplyWrites(fs, ws)[p] != fs[p]
    ensures exists w :: w in ws && w.path == p && w.content == ApplyWrites(fs, ws)[p]
    decreases |ws|
  {
    var last := ws[|ws| - 1];
    if last.path != p {
      ApplySource(fs, ws[..|ws| - 1], p);
      var w :| w in ws[..|ws| - 1] && w.path == p && w.content == ApplyWrites(fs, ws[..|ws| - 1])[p];
      assert w in ws;
    } else {
      assert last in ws;
    }
  }

  /** When every write to `p` puts the same content there and one does, `p` ends up with that content. */
  lemma {:induction false} ApplyAgreeing(fs: FileSystem, ws: seq<Write>, p: Path, c: Content)
    requires exists w :: w in ws && w.path == p
    requires forall w :: w in ws && w.path == p ==> w.content == c
    ensures p in ApplyWrites(fs, ws) && ApplyWrites(fs, ws)[p] == c
    decreases |ws|
  {
    var last := ws[|ws| - 1];
    var init := ws[..|ws| - 1];
    if last.path != p {
      var w :| w in ws && w.path == p;
      assert w in init by {
        var k :| 0 <= k < |ws| && ws[k] == w;
        assert k != |ws| - 1;
        assert init[k] == w;
      }
      ApplyAgreeing(fs, init, p, c);
    } else {
      assert last in ws;
    }
  }

  /** A path some write targets ends up present, holding what one of its writes put there. */
  lemma {:induction false} ApplyLastWrite(fs: FileSystem, ws: seq<Write>, p: Path)
    requires exists w :: w in ws && w.path == p
    ensures p in ApplyWrites(fs, ws)
    ensures exists w :: w in ws && w.path == p && w.content == ApplyWrites(fs, ws)[p]
    decreases |ws|
  {
    var last := ws[|ws| - 1];
    var init := ws[..|ws| - 1];
    if last.path != p {
      var w :| w in ws && w.path == p;
      assert w in init by {
        var k :| 0 <= k < |ws| && ws[k] == w;
        assert k != |ws| - 1;
        assert init[k] == w;
      }
      ApplyLastWrite(fs, init, p);
      var v :| v in init && v.path == p && v.content == ApplyWrites(fs, init)[p];
      assert v in ws;
    } else {
      assert last in ws;
    }
  }

  /** The files of `fs` in directory `dir` whose name ends in `.jpg` (`dir.glob("*.jpg")`). */
  function JpegsIn(fs: FileSystem, dir: seq<string>): set<Path>
  {
    set p | p in fs.Keys && p.dir == dir && |p.name| >= 4 && p.name[|p.name| - 4..] == ".jpg"
  }

  /** A run that writes nothing into `dir` leaves the JPEG listing of `dir` as it was. */
  lemma JpegsUntouched(fs: FileSystem, ws: seq<Write>, dir: seq<string>)
    requires forall w :: w in ws ==> w.path.dir != dir
    ensures JpegsIn(ApplyWrites(fs, ws), dir) == JpegsIn(fs, dir)
  {
    ApplyKeys(fs, ws);
  }
}
