/**
 * The collection phase of `preprocess_and_split` (src/preprocess.py:147-160):
 * every image-suffixed file of every listed class directory, tagged with
 * the index of its class. A raw tree is a map from class directory name to
 * its listing; a class whose directory does not exist has no key.
 */
module Collect {
  import PyStr
  import opened Layout
  import opened Splitting

  /** One entry of a class directory, in `glob("*")` order; `loadable` says whether PIL can decode it. */
  datatype RawEntry = RawEntry(name: string, loadable: bool)

  /** The images of the listing of class directory `c`, in listing order. */
  function ImagesOf(c: string, listing: seq<RawEntry>): seq<Source>
    decreases |listing|
  {
    if listing == [] then []
    else
      var e := listing[|listing| - 1];
      ImagesOf(c, listing[..|listing| - 1]) + (if IsImageFile(e.name) then [Source(c, e.name, e.loadable)] else [])
  }

  /** `all_images` after the collection loops over `classes`. */
  function Collected(classes: seq<string>, raw: map<string, seq<RawEntry>>): seq<Source>
    decreases |classes|
  {
    if classes == [] then []
    else
      var c := classes[|classes| - 1];
      Collected(classes[..|classes| - 1], raw) + (if c in raw then ImagesOf(c, raw[c]) else [])
  }

  /**
   * The class index `image_to_class` ends up holding for an image of class
   * directory `c`: the last position of `c` in the class list, since a
   * repeated class name rewrites the entries of its images.
   */
  function LastIndex(classes: seq<string>, c: string): (r: int)
    ensures -1 <= r < |classes|
    ensures r >= 0 ==> classes[r] == c
    ensures r == -1 <==> c !in classes
    ensures forall k :: r < k < |classes| ==> classes[k] != c
    decreases |classes|
  {
    if classes == [] then -1
    else if classes[|classes| - 1] == c then |classes| - 1
    else LastIndex(classes[..|classes| - 1], c)
  }

  /** An image is taken from a listing exactly when it is an image-suffixed entry of it. */
  lemma {:induction false} ImagesOfMembers(c: string, listing: seq<RawEntry>, s: Source)
    ensures s in ImagesOf(c, listing)
        <==> s.classDir == c && IsImageFile(s.name) && RawEntry(s.name, s.loadable) in listing
    decreases |listing|
  {
    if listing != [] {
      var init, e := listing[..|listing| - 1], listing[|listing| - 1];
      ImagesOfMembers(c, init, s);
      assert listing == init + [e];
    }
  }

  /**
   * The collection holds exactly the image-suffixed entries of the
   * directories of listed classes; missing directories contribute nothing.
   */
  lemma {:induction false} CollectedMembers(classes: seq<string>, raw: map<string, seq<RawEntry>>, s: Source)
    ensures s in Collected(classes, raw)
        <==> s.classDir in classes && s.classDir in raw && IsImageFile(s.name)
             && RawEntry(s.name, s.loadable) in raw[s.classDir]
    decreases |classes|
  {
    if classes != [] {
      var init, c := classes[..|classes| - 1], classes[|classes| - 1];
      CollectedMembers(init, raw, s);
      if c in raw {
        ImagesOfMembers(c, raw[c], s);
      }
      assert classes == init + [c];
    }
  }

  /** No two entries of a listing share a name (a directory listing). */
  predicate NamesDistinct(listing: seq<RawEntry>)
  {
    forall i, j :: 0 <= i < j < |listing| ==> listing[i].name != listing[j].name
  }

  /** Concatenating two duplicate-free sequences with no common element gives a duplicate-free one. */
  lemma NoDuplicatesAppend<T>(a: seq<T>, b: seq<T>)
    requires NoDuplicates(a) && NoDuplicates(b)
    requires forall x :: x in a ==> x !in b
    ensures NoDuplicates(a + b)
  {
    forall i, j | 0 <= i < j < |a + b|
      ensures (a + b)[i] != (a + b)[j]
    {
      if j >= |a| && i < |a| {
        assert (a + b)[i] in a && (a + b)[j] == b[j - |a|];
      }
    }
  }

  /** A listing with distinct names yields distinct images. */
  lemma {:induction false} ImagesOfDistinct(c: string, listing: seq<RawEntry>)
    requires NamesDistinct(listing)
    ensures NoDuplicates(ImagesOf(c, listing))
    decreases |listing|
  {
    if listing != [] {
      var init, e := listing[..|listing| - 1], listing[|listing| - 1];
      ImagesOfDistinct(c, init);
      forall x | x in ImagesOf(c, init)
        ensures x.name != e.name
      {
        ImagesOfMembers(c, init, x);
        var k :| 0 <= k < |init| && init[k] == RawEntry(x.name, x.loadable);
        assert listing[k] == init[k];
      }
      NoDuplicatesAppend(ImagesOf(c, init), if IsImageFile(e.name) then [Source(c, e.name, e.loadable)] else []);
    }
  }

  /**
   * With distinct class names and directory listings with distinct names,
   * no image is collected twice.
   */
  lemma {:induction false} CollectedDistinct(classes: seq<string>, raw: map<string, seq<RawEntry>>)
    requires NoDuplicates(classes)
    requires forall c :: c in raw ==> NamesDistinct(raw[c])
    ensures NoDuplicates(Collected(classes, raw))
    decreases |classes|
  {
    if classes != [] {
      var init, c := classes[..|classes| - 1], classes[|classes| - 1];
      assert NoDuplicates(init) by {
        forall i, j | 0 <= i < j < |init| ensures init[i] != init[j] {
          assert init[i] == classes[i] && init[j] == classes[j];
        }
      }
      CollectedDistinct(init, raw);
      if c in raw {
        ImagesOfDistinct(c, raw[c]);
        forall x | x in Collected(init, raw)
          ensures x !in ImagesOf(c, raw[c])
        {
          CollectedMembers(init, raw, x);
          var k :| 0 <= k < |init| && init[k] == x.classDir;
          assert classes[k] == x.classDir;
          ImagesOfMembers(c, raw[c], x);
        }
        NoDuplicatesAppend(Collected(init, raw), ImagesOf(c, raw[c]));
      } else {
        assert Collected(classes, raw) == Collected(init, raw) + [];
      }
    }
  }

  /** Prefixes of the class list grow the collection one class at a time. */
  lemma CollectedStep(classes: seq<string>, raw: map<string, seq<RawEntry>>, i: nat)
    requires i < |classes|
    ensures Collected(classes[..i + 1], raw)
        == Collected(classes[..i], raw) + (if classes[i] in raw then ImagesOf(classes[i], raw[classes[i]]) else [])
  {
    assert classes[..i + 1][..i] == classes[..i];
  }

  /** Prefixes of a listing grow its images one entry at a time. */
  lemma ImagesOfStep(c: string, listing: seq<RawEntry>, j: nat)
    requires j < |listing|
    ensures ImagesOf(c, listing[..j + 1])
        == ImagesOf(c, listing[..j]) + (if IsImageFile(listing[j].name) then [Source(c, listing[j].name, listing[j].loadable)] else [])
  {
    assert listing[..j + 1][..j] == listing[..j];
  }

  /** The last position of a name among the first `i + 1` classes. */
  lemma LastIndexStep(classes: seq<string>, i: nat, c: string)
    requires i < |classes|
    ensures LastIndex(classes[..i + 1], c) == if classes[i] == c then i else LastIndex(classes[..i], c)
  {
    assert classes[..i + 1][..i] == classes[..i];
  }

  /** A class without a directory changes no image's index. */
  lemma MissingClassKeepsIndices(classes: seq<string>, raw: map<string, seq<RawEntry>>, i: nat, m: map<Source, int>)
    requires i < |classes| && classes[i] !in raw
    requires forall s :: s in m ==> s in Collected(classes[..i], raw)
    requires forall s :: s in m ==> m[s] == LastIndex(classes[..i], s.classDir)
    ensures forall s :: s in m ==> m[s] == LastIndex(classes[..i + 1], s.classDir)
  {
    forall s | s in m
      ensures m[s] == LastIndex(classes[..i + 1], s.classDir)
    {
      CollectedMembers(classes[..i], raw, s);
      LastIndexStep(classes, i, s.classDir);
    }
  }

  /**
   * After the listing of class `i` is walked, every image carries the last
   * index of its class among the first `i + 1` classes: images of other
   * classes keep theirs, and every image of this class, even one collected
   * under an earlier copy of its name, was just given `i`.
   */
  lemma ClassDoneIndices(classes: seq<string>, raw: map<string, seq<RawEntry>>, i: nat, m0: map<Source, int>, m: map<Source, int>)
    requires i < |classes| && classes[i] in raw
    requires forall s :: s in m0 ==> s in Collected(classes[..i], raw) && m0[s] == LastIndex(classes[..i], s.classDir)
    requires forall s :: s in m ==> s in m0 || s in ImagesOf(classes[i], raw[classes[i]])
    requires forall s :: s in m0 && s.classDir != classes[i] ==> s in m && m[s] == m0[s]
    requires forall s :: s in ImagesOf(classes[i], raw[classes[i]]) ==> s in m && m[s] == i
    ensures forall s :: s in m ==> m[s] == LastIndex(classes[..i + 1], s.classDir)
  {
    var c := classes[i];
    forall s | s in m
      ensures m[s] == LastIndex(classes[..i + 1], s.classDir)
    {
      LastIndexStep(classes, i, s.classDir);
      ImagesOfMembers(c, raw[c], s);
      if s in m0 {
        CollectedMembers(classes[..i], raw, s);
      }
    }
  }

  /** One entry of the listing walk keeps the inner loop's bookkeeping. */
  lemma EntryStep(c: string, classId: int, listing: seq<RawEntry>, j: nat,
                  all0: seq<Source>, m0: map<Source, int>, all: seq<Source>, m: map<Source, int>)
    requires j < |listing|
    requires all == all0 + ImagesOf(c, listing[..j])
    requires forall s :: s in m <==> s in m0 || s in ImagesOf(c, listing[..j])
    requires forall s :: s in ImagesOf(c, listing[..j]) ==> m[s] == classId
    ensures var e := listing[j];
      var img := Source(c, e.name, e.loadable);
      var all' := if IsImageFile(e.name) then all + [img] else all;
      var m' := if IsImageFile(e.name) then m[img := classId] else m;
      && all' == all0 + ImagesOf(c, listing[..j + 1])
      && (forall s :: s in m' <==> s in m0 || s in ImagesOf(c, listing[..j + 1]))
      && (forall s :: s in ImagesOf(c, listing[..j + 1]) ==> m'[s] == classId)
  {
    ImagesOfStep(c, listing, j);
    if !IsImageFile(listing[j].name) {
      assert ImagesOf(c, listing[..j]) + [] == ImagesOf(c, listing[..j]);
    }
  }

  /**
   * The inner collection loop over one class directory listing: each
   * image-suffixed entry is appended to `all_images` and tagged with
   * `classId` in `image_to_class`.
   */
  method CollectClass(c: string, classId: int, listing: seq<RawEntry>, allImages0: seq<Source>, imageToClass0: map<Source, int>)
    returns (allImages: seq<Source>, imageToClass: map<Source, int>)
    ensures allImages == allImages0 + ImagesOf(c, listing)
    ensures forall s :: s in imageToClass <==> s in imageToClass0 || s in ImagesOf(c, listing)
    ensures forall s :: s in ImagesOf(c, listing) ==> imageToClass[s] == classId
    ensures forall s :: s in imageToClass0 && s.classDir != c ==> imageToClass[s] == imageToClass0[s]
  {
    allImages, imageToClass := allImages0, imageToClass0;
    var j := 0;
    while j < |listing|
      invariant 0 <= j <= |listing|
      invariant allImages == allImages0 + ImagesOf(c, listing[..j])
      invariant forall s :: s in imageToClass <==> s in imageToClass0 || s in ImagesOf(c, listing[..j])
      invariant forall s :: s in ImagesOf(c, listing[..j]) ==> imageToClass[s] == classId
      invariant forall s :: s in imageToClass0 && s.classDir != c ==> imageToClass[s] == imageToClass0[s]
    {
      var e := listing[j];
      EntryStep(c, classId, listing, j, allImages0, imageToClass0, allImages, imageToClass);
      if IsImageFile(e.name) {
        var img := Source(c, e.name, e.loadable);
        allImages := allImages + [img];
        imageToClass := imageToClass[img := classId];
      }
      j := j + 1;
    }
    assert listing[..j] == listing;
  }

  /**
   * The two collection loops: `all_images` in class-then-listing order, and
   * `image_to_class` giving every collected image the index of its class
   * (the last index, when a class name is listed twice).
   */
  method CollectImages(classes: seq<string>, raw: map<string, seq<RawEntry>>)
    returns (allImages: seq<Source>, imageToClass: map<Source, int>)
    ensures allImages == Collected(classes, raw)
    ensures forall s :: s in imageToClass <==> s in allImages
    ensures forall s :: s in imageToClass ==> 0 <= imageToClass[s] < |classes| && classes[imageToClass[s]] == s.classDir
    ensures forall s :: s in imageToClass ==> imageToClass[s] == LastIndex(classes, s.classDir)
  {
    allImages, imageToClass := [], map[];
    var i := 0;
    while i < |classes|
      invariant 0 <= i <= |classes|
      invariant allImages == Collected(classes[..i], raw)
      invariant forall s :: s in imageToClass <==> s in allImages
      invariant forall s :: s in imageToClass ==> imageToClass[s] == LastIndex(classes[..i], s.classDir)
    {
      var c := classes[i];
      CollectedStep(classes, raw, i);
      if c !in raw {
        MissingClassKeepsIndices(classes, raw, i, imageToClass);
        assert Collected(classes[..i], raw) + [] == Collected(classes[..i], raw);
        i := i + 1;
        continue;
      }
      ghost var before := imageToClass;
      allImages, imageToClass := CollectClass(c, i, raw[c], allImages, imageToClass);
      ClassDoneIndices(classes, raw, i, before, imageToClass);
      i := i + 1;
    }
    assert classes[..i] == classes;
    forall s | s in imageToClass
      ensures LastIndex(classes, s.classDir) >= 0
    {
      CollectedMembers(classes, raw, s);
    }
  }
}
