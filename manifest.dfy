/**
 * `DataPreprocessor.get_dataset_yaml` (src/preprocess.py): the YOLO
 * `dataset.yaml` text naming the processed directory, the three split
 * directories, the class count and the index-to-name dictionary.
 */
module Manifest {
  import PyStr

  /**
   * `str(path)` of a directory given as components, joined with `/`; an
   * absolute path starts with an empty component.
   */
  function PathText(dir: seq<string>): string
  {
    PyStr.Join(dir, '/')
  }

  /** `{i: name for i, name in enumerate(classes)}`. */
  function NamesDict(classes: seq<string>): (m: map<nat, string>)
    ensures forall i: nat :: i in m <==> i < |classes|
    ensures forall i :: 0 <= i < |classes| ==> m[i] == classes[i]
  {
    map i: nat | i < |classes| :: classes[i]
  }

  /** `repr` of a class name, quoted with single quotes; escaping is not modelled. */
  function Quote(name: string): string
  {
    "'" + name + "'"
  }

  /** The entries `i: 'name'` of the dictionary from index `from` on, separated by `, `. */
  function Entries(classes: seq<string>, from: nat): string
    requires from <= |classes|
    decreases |classes| - from
  {
    if from == |classes| then ""
    else
      var entry := PyStr.NatToString(from) + ": " + Quote(classes[from]);
      if from + 1 == |classes| then entry else entry + ", " + Entries(classes, from + 1)
  }

  /** `repr` of the names dictionary, in insertion order. */
  function NamesText(classes: seq<string>): string
  {
    "{" + Entries(classes, 0) + "}"
  }

  /** `sep.join(parts)` for a separator of any length. */
  function JoinWith(parts: seq<string>, sep: string): string
  {
    if parts == [] then ""
    else if |parts| == 1 then parts[0]
    else parts[0] + sep + JoinWith(parts[1..], sep)
  }

  /** The printed items `key: 'value'` of a dictionary with keys `from` up to `n`, in key order. */
  function DictItems(m: map<nat, string>, from: nat, n: nat): seq<string>
    requires forall i: nat :: from <= i < n ==> i in m
    decreases n - from
  {
    if from >= n then [] else [PyStr.NatToString(from) + ": " + Quote(m[from])] + DictItems(m, from + 1, n)
  }

  /** Item `i` prints key `from + i` and its quoted value. */
  lemma {:induction false} DictItemsSpec(m: map<nat, string>, from: nat, n: nat)
    requires forall i: nat :: from <= i < n ==> i in m
    ensures |DictItems(m, from, n)| == if from < n then n - from else 0
    ensures forall i :: 0 <= i < |DictItems(m, from, n)| ==>
      from + i in m && DictItems(m, from, n)[i] == PyStr.NatToString(from + i) + ": " + Quote(m[from + i])
    decreases n - from
  {
    if from < n {
      DictItemsSpec(m, from + 1, n);
      var rest := DictItems(m, from + 1, n);
      assert DictItems(m, from, n) == [PyStr.NatToString(from) + ": " + Quote(m[from])] + rest;
      forall i | 1 <= i < |DictItems(m, from, n)|
        ensures DictItems(m, from, n)[i] == PyStr.NatToString(from + i) + ": " + Quote(m[from + i])
      {
        assert DictItems(m, from, n)[i] == rest[i - 1];
        assert from + 1 + (i - 1) == from + i;
      }
    }
  }

  /** `repr` of a dictionary whose keys are `0 .. n-1` inserted in order: its items joined by `, ` inside braces. */
  function DictRepr(m: map<nat, string>, n: nat): string
    requires forall i: nat :: i < n ==> i in m
  {
    "{" + JoinWith(DictItems(m, 0, n), ", ") + "}"
  }

  /** The entries from `from` on are the dictionary's items from that key on, joined by `, `. */
  lemma {:induction false} EntriesAreItems(classes: seq<string>, from: nat)
    requires from <= |classes|
    ensures Entries(classes, from) == JoinWith(DictItems(NamesDict(classes), from, |classes|), ", ")
    decreases |classes| - from
  {
    if from < |classes| {
      var m := NamesDict(classes);
      var rest := DictItems(m, from + 1, |classes|);
      var items := [PyStr.NatToString(from) + ": " + Quote(m[from])] + rest;
      assert DictItems(m, from, |classes|) == items;
      if from + 1 < |classes| {
        EntriesAreItems(classes, from + 1);
        assert rest != [];
        assert items[1..] == rest;
      }
    }
  }

  /**
   * The printed names are `repr` of `{i: name for i, name in
   * enumerate(classes)}`: every index, in order, with its quoted class name.
   */
  lemma NamesTextIsDictRepr(classes: seq<string>)
    ensures NamesText(classes) == DictRepr(NamesDict(classes), |classes|)
  {
    EntriesAreItems(classes, 0);
  }

  /** The lines of the manifest, in order. */
  function YamlLines(processedDir: seq<string>, classes: seq<string>): seq<string>
  {
    [ "path: " + PathText(processedDir),
      "train: images/train",
      "val: images/val",
      "test: images/test",
      "",
      "nc: " + PyStr.NatToString(|classes|),
      "names: " + NamesText(classes) ]
  }

  /** Text made of lines, each ended by a newline. */
  function Lines(ls: seq<string>): string
  {
    if ls == [] then "" else ls[0] + "\n" + Lines(ls[1..])
  }

  /** `get_dataset_yaml()`. */
  function DatasetYaml(processedDir: seq<string>, classes: seq<string>): string
  {
    Lines(YamlLines(processedDir, classes))
  }

  /** Splitting newline-ended lines at newlines gives the lines back, then the empty tail. */
  lemma {:induction false} SplitLines(ls: seq<string>)
    requires forall i :: 0 <= i < |ls| ==> '\n' !in ls[i]
    ensures PyStr.Split(Lines(ls), '\n') == ls + [""]
  {
    if ls != [] {
      SplitLines(ls[1..]);
      PyStr.SplitPrefix(ls[0], Lines(ls[1..]), '\n');
      assert Lines(ls) == ls[0] + ['\n'] + Lines(ls[1..]);
      assert [ls[0]] + (ls[1..] + [""]) == ls + [""];
    }
  }

  /** A character that is neither the separator nor in any part is not in the joined text. */
  lemma {:induction false} JoinAvoids(parts: seq<string>, sep: char, c: char)
    requires c != sep
    requires forall i :: 0 <= i < |parts| ==> c !in parts[i]
    ensures c !in PyStr.Join(parts, sep)
  {
    if |parts| > 1 {
      JoinAvoids(parts[1..], sep, c);
    }
  }

  /** `str(n)` holds no newline. */
  lemma NumberHasNoNewline(n: nat)
    ensures '\n' !in PyStr.NatToString(n)
  {
    PyStr.NatToStringDigits(n);
  }

  /** The names dictionary text holds no newline when no class name does. */
  lemma {:induction false} EntriesHaveNoNewline(classes: seq<string>, from: nat)
    requires from <= |classes|
    requires forall i :: 0 <= i < |classes| ==> '\n' !in classes[i]
    ensures '\n' !in Entries(classes, from)
    decreases |classes| - from
  {
    if from < |classes| {
      NumberHasNoNewline(from);
      if from + 1 < |classes| {
        EntriesHaveNoNewline(classes, from + 1);
      }
    }
  }

  /** The three fixed split lines hold no newline. */
  lemma FixedLinesClean()
    ensures '\n' !in "train: images/train" && '\n' !in "val: images/val" && '\n' !in "test: images/test"
  {
  }

  /** Joining two newline-free texts gives a newline-free text. */
  lemma Avoids(a: string, b: string)
    requires '\n' !in a && '\n' !in b
    ensures '\n' !in a + b
  {
  }

  /** No line of the manifest holds a newline when no directory component and no class name does. */
  lemma YamlLinesClean(processedDir: seq<string>, classes: seq<string>)
    requires forall i :: 0 <= i < |processedDir| ==> '\n' !in processedDir[i]
    requires forall i :: 0 <= i < |classes| ==> '\n' !in classes[i]
    ensures forall i :: 0 <= i < 7 ==> '\n' !in YamlLines(processedDir, classes)[i]
  {
    FixedLinesClean();
    JoinAvoids(processedDir, '/', '\n');
    Avoids("path: ", PathText(processedDir));
    NumberHasNoNewline(|classes|);
    Avoids("nc: ", PyStr.NatToString(|classes|));
    EntriesHaveNoNewline(classes, 0);
    Avoids("{", Entries(classes, 0));
    Avoids("{" + Entries(classes, 0), "}");
    Avoids("names: ", NamesText(classes));
  }

  /**
   * When no directory component and no class name holds a newline, the
   * manifest reads back line by line as the path, the three split
   * directories, a blank line, the class count and the names dictionary,
   * each line ended by a newline.
   */
  lemma ManifestLines(processedDir: seq<string>, classes: seq<string>)
    requires forall i :: 0 <= i < |processedDir| ==> '\n' !in processedDir[i]
    requires forall i :: 0 <= i < |classes| ==> '\n' !in classes[i]
    ensures PyStr.Split(DatasetYaml(processedDir, classes), '\n') == YamlLines(processedDir, classes) + [""]
  {
    YamlLinesClean(processedDir, classes);
    SplitLines(YamlLines(processedDir, classes));
  }

  lemma SmallNumbers()
    ensures PyStr.NatToString(0) == "0" && PyStr.NatToString(1) == "1"
  {
  }

  lemma LastEntry()
    ensures Entries(["plastic", "metal"], 1) == "1: 'metal'"
  {
    SmallNumbers();
  }

  lemma FirstEntry()
    ensures Entries(["plastic", "metal"], 0) == "0: 'plastic', 1: 'metal'"
  {
    SmallNumbers();
    LastEntry();
  }

  /** The names dictionary of two classes, character for character as Python prints it. */
  lemma TwoClassNames()
    ensures NamesText(["plastic", "metal"]) == "{0: 'plastic', 1: 'metal'}"
  {
    FirstEntry();
  }

  /** A relative processed directory prints with `/` between its components. */
  lemma DataPath()
    ensures PathText(["data", "processed"]) == "data/processed"
  {
  }
}
