/**
 * The learning modes (js/config/modes.js): the mode saved by the landing page is
 * validated by its upper-case form, and each mode has a table of feature flags.
 */
module Modes {
  import opened Wrappers
  import opened JsText
  import opened JsObject

  const Normal := "normal"
  const InDepth := "indepth"

  const NormalName := "Normal Mode (Grades 8-10)"
  const InDepthName := "In-Depth Mode (Grades 11-12)"

  /** The eleven feature flags, in the order the tables list them. */
  const FlagNames: seq<string> := ["showDatasetViewer", "showSampleCounts", "showConfidence",
    "showAdvancedControls", "enableRetrain", "enableExport", "showDetailedStatus",
    "showTrainingProgress", "showErrorInsights", "enableSampleDeletion", "friendlyLanguage"]

  /** The Normal table: only the friendly wording is on. */
  const NormalFlags: map<string, bool> := map[
    "showDatasetViewer" := false, "showSampleCounts" := false, "showConfidence" := false,
    "showAdvancedControls" := false, "enableRetrain" := false, "enableExport" := false,
    "showDetailedStatus" := false, "showTrainingProgress" := false, "showErrorInsights" := false,
    "enableSampleDeletion" := false, "friendlyLanguage" := true]

  /** The In-Depth table: every analytical feature is on, the friendly wording off. */
  const InDepthFlags: map<string, bool> := map[
    "showDatasetViewer" := true, "showSampleCounts" := true, "showConfidence" := true,
    "showAdvancedControls" := true, "enableRetrain" := true, "enableExport" := true,
    "showDetailedStatus" := true, "showTrainingProgress" := true, "showErrorInsights" := true,
    "enableSampleDeletion" := true, "friendlyLanguage" := false]

  /**
   * What `ModeFeatures[mode]` evaluates to: one of the two tables, `undefined`, or
   * an Object.prototype member (whose properties are never the value `true`).
   */
  datatype Features = Flags(table: map<string, bool>) | Missing | Inherited

  /** Whether `ModeConfig[key]` is truthy: its two own keys and the inherited members. */
  predicate ModeConfigHas(key: string) {
    key == "NORMAL" || key == "INDEPTH" || IsInheritedName(key)
  }

  /** No upper-cased string names an Object.prototype member: each of those has a lower-case letter at position 0 or 2. */
  lemma UpperNotInherited(s: string)
    ensures !IsInheritedName(ToUpper(s))
  {
    var u := ToUpper(s);
    if |u| > 0 {
      assert !('a' <= u[0] <= 'z');
    }
    if |u| > 2 {
      assert !('a' <= u[2] <= 'z');
    }
  }

  /** `loadMode`, given what local storage holds under "learningMode" (None when nothing is saved). */
  function LoadMode(saved: Option<string>): (m: string)
    ensures saved.None? || saved.value == "" ==> m == Normal
    ensures saved.Some? && saved.value != "" ==>
              m == if ToUpper(saved.value) in {"NORMAL", "INDEPTH"} then saved.value else Normal
    ensures ToUpper(m) == "NORMAL" || ToUpper(m) == "INDEPTH"
  {
    if saved.None? || saved.value == "" then Normal
    else
      UpperNotInherited(saved.value);
      if !ModeConfigHas(ToUpper(saved.value)) then Normal else saved.value
  }

  /** `ModeFeatures[mode]`. */
  function ModeFeatures(mode: string): (f: Features)
    ensures f.Flags? <==> mode == Normal || mode == InDepth
    ensures f.Flags? ==> f.table.Keys == NormalFlags.Keys
    ensures f.Inherited? <==> IsInheritedName(mode)
  {
    if mode == Normal then Flags(NormalFlags)
    else if mode == InDepth then Flags(InDepthFlags)
    else if IsInheritedName(mode) then Inherited
    else Missing
  }

  /** The two fields the constructor assigns. */
  datatype LearningMode = LearningMode(currentMode: string, features: Features)
  {
    /** `getMode`. */
    function GetMode(): string {
      currentMode
    }

    /** `isEnabled`: whether the flag is exactly `true`; None where reading it throws a TypeError (no table). */
    function IsEnabled(featureName: string): (r: Option<bool>)
      ensures r.None? <==> features.Missing?
      ensures r == Some(true) <==> features.Flags? && featureName in features.table && features.table[featureName]
    {
      match features
      case Flags(table) => Some(featureName in table && table[featureName])
      case Missing => None
      case Inherited => Some(false)
    }

    /** `getDisplayName`. */
    function GetDisplayName(): (r: string)
      ensures r == NormalName <==> currentMode == Normal
      ensures r != NormalName ==> r == InDepthName
    {
      if currentMode == Normal then NormalName else InDepthName
    }
  }

  /** The constructor: the loaded mode and its table. */
  function NewLearningMode(saved: Option<string>): (lm: LearningMode)
    ensures lm.currentMode == LoadMode(saved)
    ensures lm.features.Flags? <==> lm.currentMode == Normal || lm.currentMode == InDepth
    ensures lm.features.Missing? <==> !(lm.currentMode == Normal || lm.currentMode == InDepth)
  {
    var mode := LoadMode(saved);
    UpperNotInherited(mode);
    LearningMode(mode, ModeFeatures(mode))
  }

  /** The two tables have the same eleven keys, and each In-Depth flag is the negation of the Normal one. */
  lemma TablesMirror()
    ensures NormalFlags.Keys == InDepthFlags.Keys
    ensures |NormalFlags.Keys| == 11
    ensures forall k :: k in NormalFlags ==> InDepthFlags[k] == !NormalFlags[k]
    ensures forall k :: k in NormalFlags ==> (NormalFlags[k] <==> k == "friendlyLanguage")
  {
    TableKeys();
    TableValues();
  }

  lemma TableKeys()
    ensures NormalFlags.Keys == InDepthFlags.Keys == set k | k in FlagNames
    ensures |NormalFlags.Keys| == 11
  {
    NormalKeys();
    InDepthKeys();
    DistinctCard(FlagNames);
  }

  lemma TableValues()
    ensures forall k :: k in NormalFlags ==> InDepthFlags[k] == !NormalFlags[k]
    ensures forall k :: k in NormalFlags ==> (NormalFlags[k] <==> k == "friendlyLanguage")
  {
    NormalKeys();
    forall k | k in NormalFlags
      ensures InDepthFlags[k] == !NormalFlags[k] && (NormalFlags[k] <==> k == "friendlyLanguage")
    {
      var i :| 0 <= i < |FlagNames| && FlagNames[i] == k;
      FlagAt(i);
    }
  }

  /** The two table entries for the flag at position `i` of the list. */
  lemma FlagAt(i: nat)
    requires i < |FlagNames|
    ensures InDepthFlags[FlagNames[i]] == !NormalFlags[FlagNames[i]]
    ensures NormalFlags[FlagNames[i]] <==> i == |FlagNames| - 1
  {
  }

  /** The Normal table lists exactly the eleven flag names. */
  lemma NormalKeys()
    ensures NormalFlags.Keys == set k | k in FlagNames
  {
  }

  /** The In-Depth table lists exactly the eleven flag names. */
  lemma InDepthKeys()
    ensures InDepthFlags.Keys == set k | k in FlagNames
  {
  }

  /** A sequence of distinct elements has as many members as positions. */
  lemma {:induction false} DistinctCard(s: seq<string>)
    requires Distinct(s)
    ensures |set k | k in s| == |s|
    decreases |s|
  {
    if s != [] {
      var n := |s| - 1;
      assert Distinct(s[..n]);
      DistinctCard(s[..n]);
      assert (set k | k in s) == (set k | k in s[..n]) + {s[n]};
      assert s[n] !in s[..n];
    }
  }

  /**
   * A saved mode that passes validation by its upper-case form without being exactly
   * "normal" or "indepth" is kept as written, gets no flag table, so every flag lookup
   * throws, and is shown with the In-Depth name.
   */
  lemma CapitalisedModeHasNoFlags(saved: string, feature: string)
    requires ToUpper(saved) == "NORMAL" || ToUpper(saved) == "INDEPTH"
    requires saved != Normal && saved != InDepth
    ensures NewLearningMode(Some(saved)).currentMode == saved
    ensures NewLearningMode(Some(saved)).IsEnabled(feature) == None
    ensures NewLearningMode(Some(saved)).GetDisplayName() == InDepthName
  {
    assert saved != "" by {
      assert ToUpper(saved) != "";
    }
  }

  /** The exact saved value "indepth" selects the In-Depth table. */
  lemma InDepthSelected()
    ensures NewLearningMode(Some(InDepth)).features == Flags(InDepthFlags)
  {
    assert ToUpper(InDepth) == "INDEPTH";
  }

  /** The In-Depth flags are exactly what `isEnabled` reports for the exact saved value "indepth". */
  lemma InDepthEnablesAnalytics(feature: string)
    ensures NewLearningMode(Some(InDepth)).IsEnabled(feature) == Some(feature in FlagNames && feature != "friendlyLanguage")
  {
    InDepthSelected();
  }

  /** `getMode` returns the mode `loadMode` settled on, whose upper-case form is always NORMAL or INDEPTH. */
  lemma GetModeIsLoaded(saved: Option<string>)
    ensures NewLearningMode(saved).GetMode() == LoadMode(saved)
    ensures ToUpper(NewLearningMode(saved).GetMode()) in {"NORMAL", "INDEPTH"}
  {
  }

  /** Nothing saved: Normal mode, with only the friendly wording enabled. */
  lemma DefaultIsNormal(feature: string)
    ensures NewLearningMode(None).GetMode() == Normal
    ensures NewLearningMode(None).GetDisplayName() == NormalName
    ensures NewLearningMode(None).IsEnabled(feature) == Some(feature == "friendlyLanguage")
  {
  }
}
