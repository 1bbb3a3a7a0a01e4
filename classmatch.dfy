/**
 * Mapping a detector class name onto a project class index
 * (`_find_closest_class` in src/auto_label.py): the first project class one of
 * whose `_`-separated parts occurs in the lower-cased detection name, then
 * three keyword fallbacks, else -1.
 */
module ClassMatch {
  import PyStr

  /** `any(keyword in detection for keyword in parts)`. */
  predicate AnyPartIn(parts: seq<string>, detection: string)
  {
    exists k :: 0 <= k < |parts| && PyStr.Contains(detection, parts[k])
  }

  /** Whether project class `className` matches the lower-cased detection name. */
  predicate Matches(className: string, detectionLower: string)
  {
    AnyPartIn(PyStr.Split(className, '_'), detectionLower)
  }

  /**
   * The search loop over `enumerate(classes)` from position `i`: the first
   * matching position, or -1 when none matches.
   */
  function FirstMatch(classes: seq<string>, detectionLower: string, i: nat): (r: int)
    requires i <= |classes|
    ensures r == -1 || i <= r < |classes|
    ensures r >= 0 ==> Matches(classes[r], detectionLower)
    ensures r >= 0 ==> forall j :: i <= j < r ==> !Matches(classes[j], detectionLower)
    ensures r == -1 ==> forall j :: i <= j < |classes| ==> !Matches(classes[j], detectionLower)
    decreases |classes| - i
  {
    if i == |classes| then -1
    else if Matches(classes[i], detectionLower) then i
    else FirstMatch(classes, detectionLower, i + 1)
  }

  /** `classes.index(c)`: the first position holding `c`. */
  function IndexOf(classes: seq<string>, c: string): (r: nat)
    requires c in classes
    ensures r < |classes| && classes[r] == c
    ensures forall j :: 0 <= j < r ==> classes[j] != c
  {
    if classes[0] == c then 0 else 1 + IndexOf(classes[1..], c)
  }

  /** `_find_closest_class(detection_name)`, as written, fallbacks included. */
  function FindClosestClass(classes: seq<string>, detectionName: string): (r: int)
    ensures -1 <= r < |classes|
  {
    var low := PyStr.Lower(detectionName);
    var found := FirstMatch(classes, low, 0);
    if found >= 0 then found
    else if PyStr.Contains(low, "bottle") then
      (if "plastic_bottle" in classes then IndexOf(classes, "plastic_bottle") else -1)
    else if PyStr.Contains(low, "bag") then
      (if "plastic_bag" in classes then IndexOf(classes, "plastic_bag") else -1)
    else if PyStr.Contains(low, "plastic") || PyStr.Contains(low, "wrapper") then
      (if "plastic_wrapper" in classes then IndexOf(classes, "plastic_wrapper") else -1)
    else -1
  }

  /** The parts of `"plastic_<word>"` are `plastic` and `<word>`. */
  lemma PlasticParts(word: string)
    requires '_' !in word
    ensures PyStr.Split("plastic_" + word, '_') == ["plastic", word]
  {
    assert PyStr.Join(["plastic", word], '_') == "plastic_" + word;
    PyStr.SplitJoin(["plastic", word], '_');
  }

  /** A detection name holding `word` matches the class `plastic_<word>` wherever it sits in the list. */
  lemma FallbackTargetMatches(classes: seq<string>, low: string, word: string)
    requires '_' !in word && PyStr.Contains(low, word)
    requires "plastic_" + word in classes
    ensures FirstMatch(classes, low, 0) >= 0
  {
    PlasticParts(word);
    var j := IndexOf(classes, "plastic_" + word);
    assert PyStr.Split(classes[j], '_')[1] == word;
    assert Matches(classes[j], low);
  }

  /**
   * The keyword fallbacks never produce a class: a fallback target's own parts
   * would already have matched in the loop, so once the loop finds nothing the
   * result is -1.
   */
  lemma FallbacksNeverMap(classes: seq<string>, detectionName: string)
    ensures FindClosestClass(classes, detectionName) == FirstMatch(classes, PyStr.Lower(detectionName), 0)
  {
    var low := PyStr.Lower(detectionName);
    assert "plastic_bottle" == "plastic_" + "bottle";
    assert "plastic_bag" == "plastic_" + "bag";
    assert "plastic_wrapper" == "plastic_" + "wrapper";
    if PyStr.Contains(low, "bottle") && "plastic_bottle" in classes {
      FallbackTargetMatches(classes, low, "bottle");
    }
    if PyStr.Contains(low, "bag") && "plastic_bag" in classes {
      FallbackTargetMatches(classes, low, "bag");
    }
    if PyStr.Contains(low, "plastic") && "plastic_wrapper" in classes {
      PlasticParts("wrapper");
      var j := IndexOf(classes, "plastic_wrapper");
      assert PyStr.Split(classes[j], '_')[0] == "plastic";
      assert Matches(classes[j], low);
    }
    if PyStr.Contains(low, "wrapper") && "plastic_wrapper" in classes {
      FallbackTargetMatches(classes, low, "wrapper");
    }
  }

  /**
   * The result is the lowest index whose class matches the lower-cased
   * detection name, and -1 exactly when no class matches.
   */
  lemma ClosestIsLowestMatch(classes: seq<string>, detectionName: string)
    ensures var r := FindClosestClass(classes, detectionName);
      var low := PyStr.Lower(detectionName);
      && (r >= 0 ==> Matches(classes[r], low) && forall j :: 0 <= j < r ==> !Matches(classes[j], low))
      && (r == -1 <==> forall j :: 0 <= j < |classes| ==> !Matches(classes[j], low))
  {
    FallbacksNeverMap(classes, detectionName);
  }

  /**
   * A class name with an empty part (a leading, trailing or doubled `_`)
   * matches every detection, since the empty string occurs in every string.
   */
  lemma EmptyPartMatchesAll(classes: seq<string>, i: nat, detectionName: string)
    requires i < |classes| && "" in PyStr.Split(classes[i], '_')
    ensures 0 <= FindClosestClass(classes, detectionName) <= i
  {
    var low := PyStr.Lower(detectionName);
    PyStr.EmptyIsEverywhere(low);
    var parts := PyStr.Split(classes[i], '_');
    var k :| 0 <= k < |parts| && parts[k] == "";
    assert Matches(classes[i], low);
    FallbacksNeverMap(classes, detectionName);
  }
}
