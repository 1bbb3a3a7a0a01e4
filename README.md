# Waste-classifier dataset pipeline, modelled in Dafny

This project models the logic of a YOLO dataset pipeline for waste classes. It does not model the glue around the image, detector and web libraries. Three parts are modelled:

- **`DataPreprocessor`** (src/preprocess.py) has three jobs:
  - It collects the image files of every class directory and tags each one with its class index.
  - It cuts the shuffled collection into train, val and test slices.
  - For each image it writes a `<stem>.jpg` copy and a one-line full-image label. In the train split, when augmentation is enabled, it also writes `augmentation_factor - 1` augmented variants.

  It also builds the augmentation transform list from the configuration and renders the `dataset.yaml` manifest text.
- **`AutoLabeler`** (src/auto_label.py) works in four steps:
  - It turns detector boxes in pixels into normalized YOLO boxes.
  - It maps a detector class name onto a project class by substring matching on the `_`-separated parts of each class name.
  - For every readable image of a class directory it writes `<stem>.txt` beside the image, and keeps the total and labelled counters.
  - It runs this over every class.
- **`get_config_value`** (src/config_loader.py) is the dot-path lookup in the nested configuration.

How the model represents the system:

- **The file system** is a value `map<Path, Content>`. A run is a sequence of writes applied in order, so a later write to a path replaces an earlier one (`Layout.ApplyWrites`). Each operation that writes files takes the file system before it and returns the one after it. Its postcondition ties the result to a specification function that lists the writes. Lemmas then state what those writes put where.
- **File contents are abstract.** A JPEG is recorded as "a re-encoding of source image X, variant i". A label file is its list of `(class id, box)` lines.
- **Python semantics are written out** where they matter:
  - `int()` truncates toward zero.
  - Slice bounds are clamped, and negative bounds count from the end.
  - `str.split` on one character gives empty pieces.
  - `PurePath.stem` and `PurePath.suffix` follow their rules for leading and trailing dots.
  - Truthiness, `str(n)` and substring search are modelled as Python defines them.
  - The lookup `image_to_class[...]` gives the last index of a class name that is listed twice.
- **The random shuffle is an input**: any reordering of the collected images, stated as a multiset equality.
- **The detector is an input**: for each image, the list of `(class name, box)` records it returns after its own confidence filtering, or nothing when the model call raises. `cv2.imread` is an input too: the image size, or nothing when the file cannot be read.

The model follows the code as written. Some consequences of the code are worth stating:

- Train and val get `int(n * ratio)` images each, and test gets every image left over, so the flooring remainder lands in test (src/preprocess.py:170-175). `test_split` is read but never used.
- Label files go to `<processed>/images/labels/<stem>.txt`. That is `output_dir.parent / "labels"` (src/preprocess.py:130, 201). All three splits share this directory, so a train image and a val image with the same stem share one label file, and the later split's class is the one left in it (`PreprocessFacts.LabelSharedAcrossSplits`). The `labels/<split>` directories created at src/preprocess.py:53 stay empty.
- `_normalize_bbox` does not clamp (src/auto_label.py:59-65), although its docstring promises values in [0, 1] (src/auto_label.py:57). A box inside the image normalizes into [0, 1]. A box that reaches outside the image may normalize outside [0, 1], because nothing clamps (`BoxMath.NoClamping`).
- `_find_closest_class` matches by substring: a class matches when one of its `_`-separated name parts occurs in the lower-cased detection name (src/auto_label.py:78-82). The keyword fallbacks at src/auto_label.py:84-92 can never produce a class. Each fallback target's own name parts would already have matched in the loop (`ClassMatch.FallbacksNeverMap`).
- Two images of one split with the same stem write to the same `<stem>.jpg`, for example `img1.jpg` in two class folders. The later image wins, and the reported count is the number of distinct stems (`PreprocessFacts.SameStemLaterWins`, `PreprocessFacts.ReportedCountIsStems`). In auto-labeling, `a.jpg` and `a.png` in one class directory share `a.txt`, and the later image's lines win (`AutoLabel.SameStemLaterLabelWins`).
- A truthy `blur` option makes `_get_augmentation_transform` look up `A.GaussBlur` (src/preprocess.py:90-91). Albumentations calls that transform `GaussianBlur`, so the lookup raises. `_augment_image` calls the builder outside its per-iteration `try` (src/preprocess.py:115), so the exception reaches the `try` of `preprocess_and_split` (src/preprocess.py:193-210). The copy and its label are already written, and no variant is (`Augmentation.GetAugmentationTransform`, `Preprocess.AugmentImage`).

## Model

| member | source | states |
|---|---|---|
| Config.Lookup | src/config_loader.py:55-62 | what the loop computes on the split keys; `Config.NonDictDefault`, `Config.PresentPathGivesLeaf` and `Config.MissingKeyContinuesInDefault` state its properties |
| Config.GetConfigValue | src/config_loader.py:53-62 | the loop over the `.`-separated keys returns the lookup: each dictionary step takes `get(key, default)`, and a non-dictionary with keys left returns `default` |
| Config.SingleSegment | src/config_loader.py:53-58 | a path without dots is exactly `config.get(key, default)` |
| Config.PresentPathGivesLeaf | src/config_loader.py:55-62 | when every key exists through nested dictionaries, the leaf is returned whatever it is (falsy or `None` included) and whatever the default |
| Config.NonDictDefault | src/config_loader.py:57-62 | with a non-dictionary default, the lookup equals an independent default-free walk, and `default` whenever that walk fails (missing key or non-dictionary on the way) |
| Config.NonDictBeforeEnd | src/config_loader.py:56-60 | reaching a non-dictionary while keys remain returns `default`, even when `default` is a dictionary |
| Config.MissingKeyContinuesInDefault | src/config_loader.py:57-62 | a missing key replaces the current value by `default` and the walk continues inside `default` with the remaining keys |
| Config.EmptySegment | src/config_loader.py:53 | `"a..b"` is looked up as the keys `a`, `""`, `b` |
| Config.DictDefaultExample | src/config_loader.py:57-62 | a missing middle key with a dictionary default `{"c": 5}` yields 5 for `a.b.c` |
| PyStr.Split | src/config_loader.py:53 | `str.split` on one character: at least one piece, no piece holds the separator, and joining the pieces gives the string back |
| PyStr.SplitJoin | src/config_loader.py:53 | splitting is the inverse of joining separator-free pieces |
| PyStr.SplitNoSeparator | src/config_loader.py:53 | a string without the separator splits into itself |
| PyStr.SplitPrefix | src/preprocess.py:227-234 | a separator-free prefix followed by the separator becomes the first piece |
| PyStr.StemSuffix | src/preprocess.py:196 | `stem + suffix` is the name, and a non-empty suffix starts with a dot and leaves a non-empty stem |
| PyStr.StemWithExtension | src/preprocess.py:125-130 | the stem of `base + ".ext"` is `base` for a non-empty base, and its suffix is `.ext` |
| PyStr.NatToStringDigits | src/preprocess.py:126 | `str(n)` holds decimal digits only |
| PyStr.RFind | src/preprocess.py:158 | the index of the last occurrence of a character, or -1 when there is none |
| PyStr.EmptyIsEverywhere | src/auto_label.py:81 | the empty string is a substring of every string |
| PyStr.ContainsAt | src/auto_label.py:81 | an occurrence at some offset makes the substring test succeed |
| PyStr.ContainsSomewhere | src/auto_label.py:81 | a successful substring test names an offset where the needle occurs (the converse of `ContainsAt`) |
| PyStr.Stem | src/preprocess.py:196 | `PurePath.stem`: the name without its last dot-suffix, and the whole name when the last dot is leading or trailing; `PyStr.StemSuffix` and `PyStr.StemWithExtension` state its properties |
| PyStr.Suffix | src/preprocess.py:158 | `PurePath.suffix`: from the last dot on, or empty when the last dot is leading or trailing; `PyStr.StemSuffix` relates it to `Stem` |
| Layout.IsImageFile | src/preprocess.py:158 | the accepted image files (the same test as src/auto_label.py:110): lower-cased suffix `.jpg`, `.jpeg` or `.png`; `Layout.ImageStemNonEmpty` and `Collect.ImagesOfMembers` state what it admits |
| Layout.ImageStemNonEmpty | src/preprocess.py:158 | an accepted image name has a non-empty stem |
| BoxMath.NormalizeBbox | src/auto_label.py:59-65 | centre and size over the image size, without clamping; `BoxMath.NormalizeRoundTrip`, `BoxMath.NormalizeInUnit` and `BoxMath.NoClamping` state its properties |
| BoxMath.AxisRoundTrip | src/auto_label.py:59-65 | on one axis, centre and size of `[a, b]` recover `a` and `b` exactly |
| BoxMath.NormalizeRoundTrip | src/auto_label.py:59-65 | denormalizing a normalized box gives back its four corners exactly, for any positive image size |
| BoxMath.AxisInUnit | src/auto_label.py:57-65 | on one axis, `0 <= a <= b <= len` puts centre and size in [0, 1] |
| BoxMath.NormalizeInUnit | src/auto_label.py:57-65 | a box inside the image normalizes to four values in [0, 1] |
| BoxMath.NoClamping | src/auto_label.py:59-65 | a box twice as wide as the image gets normalized width 2: nothing clamps, against the [0, 1] promise at src/auto_label.py:57 |
| ClassMatch.FirstMatch | src/auto_label.py:80-82 | the matching loop returns the lowest matching index from its start, or -1 exactly when no class matches |
| ClassMatch.IndexOf | src/auto_label.py:86-90 | `list.index` returns the first position holding the value |
| ClassMatch.FindClosestClass | src/auto_label.py:78-92 | the result is -1 or a valid class index |
| ClassMatch.PlasticParts | src/auto_label.py:84-90 | `plastic_<word>` splits into `plastic` and `<word>` |
| ClassMatch.FallbackTargetMatches | src/auto_label.py:84-90 | a detection holding `<word>` already matches the class `plastic_<word>` in the loop |
| ClassMatch.FallbacksNeverMap | src/auto_label.py:84-92 | the result, fallbacks included, equals the loop's result: the fallbacks only ever return -1 |
| ClassMatch.ClosestIsLowestMatch | src/auto_label.py:78-92 | the result is the lowest index of a class with a part inside the lower-cased name, and -1 exactly when none matches |
| ClassMatch.EmptyPartMatchesAll | src/auto_label.py:80-82 | a class name with an empty part (leading, trailing or doubled `_`) matches every detection |
| AutoLabel.KeptLinesFailurePersists | src/auto_label.py:130-141 | once the detection loop raises on a prefix, labelling the image raises |
| AutoLabel.LabelImage | src/auto_label.py:117-141 | the per-image loop yields the kept lines, one per mapped detection in detector order, or skips the image when inference raises, the image is unreadable or a division by a zero size raises |
| AutoLabel.AutoLabelDirectory | src/auto_label.py:104-159 | `total` counts the image-suffixed entries, `labelled` the images with a non-empty label file, `labelled <= total`, and the file system is the result of that listing's label writes |
| AutoLabel.LabelEntry | src/auto_label.py:109-157 | one listing entry: it is counted as an image exactly when its suffix is accepted, counted as labelled exactly when its labelling succeeds with lines, and the file system gains that entry's label write |
| AutoLabel.LabelClass | src/auto_label.py:170-177 | one class: the directory's counts, with labelled at most total, or `(0, 0)` and nothing written when the directory is missing |
| AutoLabel.AutoLabelAll | src/auto_label.py:168-179 | every class gets an entry: its directory's counts, or `(0, 0)` when the directory is missing; labelled never exceeds total; the writes are the directories' writes in class order |
| AutoLabel.LabelledAtMostImages | src/auto_label.py:113-153 | the labelled count never exceeds the image count |
| AutoLabel.KeptLinesEmptyIff | src/auto_label.py:128-148 | the label file is empty exactly when no detection maps onto a project class |
| AutoLabel.KeptLinesFailsIff | src/auto_label.py:130-141 | labelling raises exactly when the image has a zero dimension and some detection maps |
| AutoLabel.KeptLinesWellFormed | src/auto_label.py:136-141 | every kept line has a valid class index, and with every mapped box inside the image all four values lie in [0, 1] |
| AutoLabel.DirWritesFrom | src/auto_label.py:109-154 | every label write of the pass comes from one entry of the listing |
| AutoLabel.DirWritesInclude | src/auto_label.py:109-154 | every entry's write is among the pass's writes |
| AutoLabel.LabelPathStem | src/auto_label.py:146-151 | two images with the same `with_suffix(".txt")` path have the same stem |
| AutoLabel.OneLabelFilePerImage | src/auto_label.py:143-154 | with distinct stems, every successfully labelled image ends with exactly its kept lines in `<stem>.txt` (empty when none was kept), and a failed image's label path is untouched |
| AutoLabel.LastLabelledWins | src/auto_label.py:143-154 | with any stems, a successfully labelled image's lines stay in `<stem>.txt` unless a later image entry with the same stem also succeeds |
| AutoLabel.SameStemLaterLabelWins | src/auto_label.py:146-152 | two image entries with the same stem (`a.jpg`, `a.png`) share one label file, which ends with the later one's lines when it succeeds |
| Collect.LastIndex | src/preprocess.py:151-160 | the index `image_to_class` keeps for a class directory is its last position in the class list, -1 exactly when absent |
| Collect.ImagesOfMembers | src/preprocess.py:157-160 | an image is taken from a listing exactly when it is an entry of it with an accepted suffix |
| Collect.CollectedMembers | src/preprocess.py:151-160 | the collection holds exactly the image-suffixed entries of the directories of listed classes; missing directories contribute nothing |
| Collect.ImagesOfDistinct | src/preprocess.py:157-160 | a listing with distinct names yields no image twice |
| Collect.CollectedDistinct | src/preprocess.py:151-160 | distinct class names and listings with distinct names give a duplicate-free collection |
| Collect.MissingClassKeepsIndices | src/preprocess.py:153-155 | a class without a directory changes no image's index |
| Collect.ClassDoneIndices | src/preprocess.py:151-160 | after a class's listing, every image carries the last index of its class so far |
| Collect.CollectClass | src/preprocess.py:157-160 | the inner loop appends the listing's images and tags each with the class index, leaving other classes' tags alone |
| Collect.CollectImages | src/preprocess.py:147-160 | `all_images` is the collection in class-then-listing order, and `image_to_class` tags exactly those images, each with the last index of its class |
| Splitting.Trunc | src/preprocess.py:170-171 | `int()` on a float: truncation toward zero; `Splitting.CountIsFloor` states it is the floor for the non-negative shares used here |
| Splitting.SplitCount | src/preprocess.py:170-171 | `int(len(all_images) * ratio)`; `Splitting.CountIsFloor` and `Splitting.CountsFit` state its properties |
| Splitting.Slice | src/preprocess.py:173-175 | a Python slice with clamped and end-relative bounds; `Splitting.SliceThree` and `Splitting.CountedSlices` state its properties |
| Splitting.SplitImages | src/preprocess.py:170-175 | the three slices at the two counts; `Splitting.SplitIsPartition`, `Splitting.SplitSizes` and `Splitting.SplitsDisjoint` state its properties |
| Splitting.SliceThree | src/preprocess.py:173-175 | three consecutive slices at non-negative cuts concatenate to the list |
| Splitting.SplitIsPartition | src/preprocess.py:170-175 | with non-negative ratios, train + val + test is the shuffled list and their sizes add up to n |
| Splitting.CountIsFloor | src/preprocess.py:170-171 | `int(n * ratio)` is the floor of the exact share |
| Splitting.CountsFit | src/preprocess.py:170-175 | the two counts fit in n, and what is left is at least the test share and less than two more |
| Splitting.CountedSlices | src/preprocess.py:173-175 | slices at fitting counts have those sizes |
| Splitting.SplitSizes | src/preprocess.py:170-175 | train and val get the floored shares, and test gets the rest, between its exact share and two more |
| Splitting.SplitsDisjoint | src/preprocess.py:173-175 | with no duplicate in the shuffled list, no image lands in two splits |
| Splitting.ThreeHundredImages | src/preprocess.py:170-175 | 300 images at 0.8/0.1 give 240/30/30 |
| Augmentation.EnabledSlotsSpec | src/preprocess.py:67-91 | the enabled slots are strictly increasing, and a slot is listed exactly when its option is truthy |
| Augmentation.ChosenSpec | src/preprocess.py:67-91 | one transform per slot, with that slot's parameters |
| Augmentation.Pipeline | src/preprocess.py:65-91 | the six conditional appends, one option at a time; `Augmentation.PipelineIsChosen` states what they assemble |
| Augmentation.PipelineIsChosen | src/preprocess.py:65-93 | the six conditional appends assemble exactly the transforms of the truthy options, in slot order |
| Augmentation.PipelineRaises | src/preprocess.py:63-91 | building the pipeline raises exactly when the section has no `.get` or `blur` is truthy, since `A.GaussBlur` is not an Albumentations name |
| Augmentation.BuiltPipelineHasNoBlur | src/preprocess.py:90-91 | without a truthy `blur`, the chosen transforms hold no blur |
| Augmentation.GetAugmentationTransform | src/preprocess.py:63-93 | raises exactly when the section is not a dictionary or `blur` is truthy; otherwise gives the transforms of its truthy options in the fixed order, with the source's parameters, and never a blur |
| Preprocess.VariantFilesSpec | src/preprocess.py:118-134 | after `n` iterations, `n` paths are returned, the `i`-th being `<stem>_aug_<i>.jpg` |
| Preprocess.AugmentImage | src/preprocess.py:108-138 | an unloadable image returns `[]` and writes nothing; a non-dictionary transform section or a truthy `blur` raises before writing; otherwise the `count` variants and their labels are written and their paths returned |
| Preprocess.SaveVariants | src/preprocess.py:118-137 | the loop performs the writes of `count` variants in order (none for `count <= 0`) and returns their paths |
| Preprocess.SaveVariant | src/preprocess.py:125-134 | one iteration writes `<stem>_aug_<i>.jpg`, then its full-image label in the `labels` directory beside the output directory, and changes nothing else |
| Preprocess.AfterVariantsApplies | src/preprocess.py:118-134 | iteration by iteration, the loop's file system is the one the variant writes produce |
| Preprocess.ProcessImage | src/preprocess.py:193-210 | one image's `try` block performs exactly its copy, label and variant writes, and nothing when it cannot be opened |
| Preprocess.ProcessSplit | src/preprocess.py:190-210 | a split's image loop performs its images' writes in order, each labelled with the image's class index |
| Preprocess.PreprocessAndSplit | src/preprocess.py:147-215 | an empty collection returns `{}` and writes nothing; otherwise every split of the shuffled list is written and each reported count is the number of `*.jpg` files in that split's directory afterwards |
| Preprocess.WriteSplits | src/preprocess.py:185-213 | the split loop writes train, val and test in order and records each split's JPEG count |
| Preprocess.SameMembers | src/preprocess.py:169 | a shuffled list has the same members as the collection |
| Preprocess.PartsWithin | src/preprocess.py:173-175 | every split is made of images of the shuffled list |
| Preprocess.StatsStep | src/preprocess.py:185-212 | writing a split leaves the counts already recorded for earlier splits true |
| Preprocess.SliceWithin | src/preprocess.py:173-175 | a slice holds only elements of the list |
| Preprocess.LabelsShared | src/preprocess.py:201 | every split's labels go to the one `<processed>/images/labels` directory |
| Preprocess.VariantWritesOnly | src/preprocess.py:118-134 | the augmentation loop writes nothing but variants numbered below `count` of its image, at their names, and full-image labels beside the output directory |
| Preprocess.ImageWritesOnly | src/preprocess.py:193-207 | every JPEG written for an image re-encodes that loadable image into its split directory, as the `<stem>.jpg` copy or as a variant below `aug_factor - 1` of an augmented split; every label holds the image's class |
| Preprocess.SplitWritesOnly | src/preprocess.py:190-207 | a split writes only JPEGs of its own loadable images into its directory, with variants only in an augmented split, and labels of its images' classes |
| Preprocess.SplitWritesDirs | src/preprocess.py:197-203 | a split writes only into its own directory and the shared labels directory |
| Preprocess.SplitDirsDiffer | src/preprocess.py:177-181 | the three split directories and the labels directory are pairwise different |
| PreprocessFacts.VariantWritesContain | src/preprocess.py:118-134 | `count` iterations make `2 * count` writes, among them every variant `k < count` and its label |
| PreprocessFacts.ImageWritesContain | src/preprocess.py:193-207 | a loadable image gets its copy and its full-image label, and all `aug_factor - 1` variants when its split is augmented; an unloadable one gets nothing |
| PreprocessFacts.SplitWritesContain | src/preprocess.py:190-203 | every loadable image of a split gets its copy and a label with its class index |
| PreprocessFacts.LabelNamedAfterImage | src/preprocess.py:196-203 | the label of an accepted image is `<processed>/images/labels/<stem>.txt`, whatever its original extension |
| PreprocessFacts.NewJpegsAreCopies | src/preprocess.py:190-212 | without augmentation, every JPEG in the split directory afterwards was there before or is the copy of a loadable image |
| PreprocessFacts.CopiesAreJpegs | src/preprocess.py:190-212 | every copy is listed among the split's JPEGs afterwards |
| PreprocessFacts.SplitJpegs | src/preprocess.py:190-212 | without augmentation, the split's JPEGs afterwards are the ones before plus one copy per loadable image |
| PreprocessFacts.JpegNamesCount | src/preprocess.py:197 | distinct stems give distinct `<stem>.jpg` paths |
| PreprocessFacts.CopiesCount | src/preprocess.py:196-198 | a split's copies are one per distinct stem of its loadable images |
| PreprocessFacts.SplitCountIsStems | src/preprocess.py:196-212 | without augmentation and from an empty split directory, the split's JPEG count is its number of distinct loadable stems |
| PreprocessFacts.CopyKept | src/preprocess.py:196-198 | when no two loadable images share a stem, each copy holds its own image |
| PreprocessFacts.LaterCopyWins | src/preprocess.py:196-198 | the later of two images with the same stem overwrites the earlier's copy |
| PreprocessFacts.SameStemLaterWins | src/preprocess.py:196-212 | two loadable images with the same stem leave a single JPEG, holding the later image |
| PreprocessFacts.SameNameAcrossClasses | src/preprocess.py:196-212 | `cat/img1.jpg` and `dog/img1.jpg` in the validation split leave one JPEG, the dog's |
| PreprocessFacts.RunJpegs | src/preprocess.py:185-212 | during the run, an unaugmented split's JPEGs change only when it is processed, gaining its copies |
| PreprocessFacts.SplitStaysOut | src/preprocess.py:185-212 | processing one split leaves the JPEG listing of every other split unchanged |
| PreprocessFacts.ReportedCountIsStems | src/preprocess.py:170-212 | after the whole run, an unaugmented split that started empty holds one JPEG per distinct stem of the loadable images it received |
| PreprocessFacts.VariantJpegsLabelled | src/preprocess.py:125-132 | every variant image the loop writes has its full-image label named after the variant's stem |
| PreprocessFacts.ImageJpegsLabelled | src/preprocess.py:196-207 | every JPEG written for an image, copy or variant, has a label of the image's class at `<processed>/images/labels/<stem>.txt` |
| PreprocessFacts.SplitJpegsLabelled | src/preprocess.py:190-207 | every JPEG a split's loop writes has a label holding its source's class index, named after its stem |
| PreprocessFacts.RunJpegsLabelled | src/preprocess.py:185-207 | the same for every JPEG of the run |
| PreprocessFacts.RunWritesDirs | src/preprocess.py:177-207 | in a run, exactly the label files go to the labels directory, each a one-line full-image label |
| PreprocessFacts.RunWritesInclude | src/preprocess.py:185-207 | a split's writes are among the run's writes once that split is processed |
| PreprocessFacts.WrittenJpegsLabelled | src/preprocess.py:185-212 | after the run, every JPEG that is new or changed has a full-image label at `<processed>/images/labels/<stem>.txt` |
| PreprocessFacts.LoadableImageKept | src/preprocess.py:185-212 | after the run, every loadable image of a split leaves a JPEG at `<split>/<stem>.jpg` and a full-image label at `<processed>/images/labels/<stem>.txt` |
| PreprocessFacts.WrittenLabelKept | src/preprocess.py:196-203 | a written copy's label path holds some full-image label after the run |
| PreprocessFacts.OneImageSplit | src/preprocess.py:190-203 | without augmentation, one loadable image in a split gets its copy, then its label |
| PreprocessFacts.TwoImageRun | src/preprocess.py:185-203 | a run over one train and one val image with the same stem writes both copies and twice the same label path |
| PreprocessFacts.LabelSharedAcrossSplits | src/preprocess.py:185-203 | the shared labels directory: a train image's label ends up holding the class of a later val image with the same stem, while the train copy stays |
| Manifest.NamesText | src/preprocess.py:225-233 | the printed names dictionary, built entry by entry; `Manifest.NamesTextIsDictRepr` states what it prints |
| Manifest.DictItemsSpec | src/preprocess.py:233 | item `i` of a printed dictionary is `str(key) + ": " + repr(value)` for key `from + i` |
| Manifest.EntriesAreItems | src/preprocess.py:225-233 | the entries from index `from` on are the dictionary's items from that key on, joined by `, ` |
| Manifest.NamesTextIsDictRepr | src/preprocess.py:225-233 | the `names` text is `repr` of `{i: name for i, name in enumerate(classes)}`: every index in order with its quoted name, joined by `, ` inside braces |
| Manifest.YamlLines | src/preprocess.py:227-234 | the seven lines of the f-string; `Manifest.ManifestLines` states how the text reads back |
| Manifest.DatasetYaml | src/preprocess.py:217-235 | `get_dataset_yaml()`: the lines, each ended by a newline; `Manifest.ManifestLines` states its contents |
| Manifest.SplitLines | src/preprocess.py:227-234 | newline-ended lines without newlines split back into those lines and an empty tail |
| Manifest.JoinAvoids | src/preprocess.py:227 | the printed path holds no newline when no component does |
| Manifest.NumberHasNoNewline | src/preprocess.py:232 | `str(nc)` holds no newline |
| Manifest.EntriesHaveNoNewline | src/preprocess.py:225-233 | the printed names dictionary holds no newline when no class name does |
| Manifest.YamlLinesClean | src/preprocess.py:227-234 | no manifest line holds a newline when no path component or class name does |
| Manifest.ManifestLines | src/preprocess.py:227-234 | the manifest reads back line by line as `path: <dir>`, the fixed `images/train`, `images/val` and `images/test` roots, a blank line, `nc: <number of classes>` and `names: <dictionary>` |
| Manifest.TwoClassNames | src/preprocess.py:225-233 | two classes print as `{0: 'plastic', 1: 'metal'}` |
| Manifest.DataPath | src/preprocess.py:227 | the directory `data/processed` prints as `data/processed` |

## Left out

- Image decoding and encoding (PIL `open`/`convert`/`save`, `cv2.imread`) and the pixel-level Albumentations transforms are foreign libraries. Whether an image loads is an input flag, and a written JPEG is recorded by its source and variant number.
- `random.seed` and `random.shuffle` (src/preprocess.py:43-44, 169) are not modelled. The shuffled list is an input constrained to be a reordering of the collection, so seed determinism is not stated.
- YOLO inference (src/auto_label.py:117) is an input list of detections per image. The confidence and IoU thresholds are applied inside the model call, so they are not modelled.
- Python floats are exact reals. `int(n * ratio)` on floats can floor one lower than exact arithmetic (for example `100 * 0.29`).
- AutoLabel.AutoLabelDirectory: the `:.6f` text formatting of label lines is abstract. A label file holds its `(class id, box)` lines, not their text.
- Preprocess.FullImageLabel: the text `<class_id> 0.5 0.5 1.0 1.0` is the label line with box `(0.5, 0.5, 1.0, 1.0)`. The number text is not modelled.
- PyStr.Lower: only ASCII letters are case-folded. Python's full Unicode `lower()` is not modelled.
- Manifest.Quote: class names are printed between single quotes without Python's `repr` escaping. Names containing quotes or backslashes are therefore not covered.
- Manifest.ManifestLines: the lines are stated for names and path components without newlines. The concrete example covers the `names` line and the path separately, not the whole text.
- PreprocessFacts.ReportedCountIsStems: the reported count is characterised only for unaugmented splits whose directory held no JPEGs. For the augmented train split, `Preprocess.PreprocessAndSplit` still states that the count is the number of JPEGs in the directory, and `Preprocess.SplitWritesOnly` states which files those can be.
- The order of `glob("*")` and `sorted(...)` listings is an input sequence. `sorted` is assumed to be applied already.
- Failures of file writes and of the directory creation are not modelled. Neither are the per-iteration exceptions inside `_augment_image` (src/preprocess.py:119-136), which would drop single variants. The `try` in `preprocess_and_split` is modelled for images that cannot be opened, and for the pipeline build raising inside `_augment_image` (a transform section that is not a dictionary, or a truthy `blur`): then the copy and its label stay and no variant is written.
- `__init__`, `_create_yolo_structure`, `save_dataset_yaml`, `load_config` and `create_directories` are not modelled. They read YAML, create directories and write files with no logic of their own. `Preprocess.Settings` holds what `__init__` reads.
- Logging is not modelled.
- `_augment_image`'s loop is split into `Preprocess.SaveVariants` and `Preprocess.SaveVariant`. The detection loop of `auto_label_directory` is `AutoLabel.LabelImage`. `AutoLabel.MappedClass` is the matching loop, which `ClassMatch.FallbacksNeverMap` proves equal to `_find_closest_class`.
