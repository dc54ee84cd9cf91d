/**
 * Live recognition (js/core/predictor.js): confident predictions enter a sliding
 * window of labels; a label that fills at least 70% of a full window is emitted
 * into the sentence once, and the window starts over.
 */
module Predictor {
  import opened Wrappers
  import opened JsObject
  import Output

  const HistorySize: nat := 10
  const MinConfidence: real := 0.6

  /** What `trainer.predict` hands over: the decoded label and its probability. */
  datatype Result = Result(name: string, confidence: real)

  /** `lastError`; `timestamp` is the clock reading supplied by the caller. */
  datatype ErrorRecord = ErrorRecord(expected: string, predicted: string, timestamp: int)

  /** `mostCommon` and `maxCount` of the vote. */
  datatype Vote = Vote(name: Option<string>, count: nat)

  /** The state the stability rule works on: the window and the last emitted label. */
  datatype Engine = Engine(history: seq<string>, lastStable: Option<string>)

  /** The state after one prediction, and the label it emitted, if any. */
  datatype Step = Step(next: Engine, emitted: Option<string>)

  /** How often `name` occurs in `h`. */
  function Occ(h: seq<string>, name: string): nat {
    if h == [] then 0 else Occ(h[..|h| - 1], name) + if h[|h| - 1] == name then 1 else 0
  }

  lemma {:induction false} OccBounds(h: seq<string>, a: string, b: string)
    ensures Occ(h, a) > 0 <==> a in h
    ensures a != b ==> Occ(h, a) + Occ(h, b) <= |h|
    decreases |h|
  {
    if h != [] {
      var n := |h| - 1;
      OccBounds(h[..n], a, b);
      assert h == h[..n] + [h[n]];
    }
  }

  /**
   * The keys of the `counts` object after counting `h`, in JavaScript key order.
   * A label naming an Object.prototype member gets no numeric count (its `counts`
   * entry becomes a string, which never compares above a number), so it is left
   * out: it can never win the vote.
   */
  function CountKeys(h: seq<string>): seq<string> {
    if h == [] then []
    else
      var keys := CountKeys(h[..|h| - 1]);
      var name := h[|h| - 1];
      if IsInheritedName(name) || name in keys then keys else InsertKey(keys, name)
  }

  lemma {:induction false} CountKeysFacts(h: seq<string>)
    ensures KeyOrdered(CountKeys(h))
    ensures forall x :: x in CountKeys(h) <==> x in h && !IsInheritedName(x)
    decreases |h|
  {
    if h != [] {
      var n := |h| - 1;
      CountKeysFacts(h[..n]);
      assert h == h[..n] + [h[n]];
      var keys := CountKeys(h[..n]);
      if !(IsInheritedName(h[n]) || h[n] in keys) {
        InsertKeyOrdered(keys, h[n]);
      }
    }
  }

  /** The `for ... in` vote: the first key whose count is strictly above every earlier one, from 0. */
  function BestOf(keys: seq<string>, h: seq<string>): (v: Vote)
    ensures v.name.None? <==> v.count == 0
    ensures v.name.Some? ==> v.name.value in keys && Occ(h, v.name.value) == v.count
    ensures forall i :: 0 <= i < |keys| ==> Occ(h, keys[i]) <= v.count
    ensures v.name.Some? ==>
              exists i :: 0 <= i < |keys| && keys[i] == v.name.value &&
                forall j :: 0 <= j < i ==> Occ(h, keys[j]) < v.count
  {
    if keys == [] then Vote(None, 0)
    else
      var n := |keys| - 1;
      var v := BestOf(keys[..n], h);
      assert forall i :: 0 <= i < n ==> keys[..n][i] == keys[i];
      if Occ(h, keys[n]) > v.count then Vote(Some(keys[n]), Occ(h, keys[n])) else v
  }

  /** `checkStability`: nothing below a full window; otherwise the vote's winner when it reaches 70%. */
  function StableLabel(h: seq<string>): (r: Option<string>)
    ensures |h| < HistorySize ==> r == None
    ensures r.Some? ==> r.value in h && !IsInheritedName(r.value) && 10 * Occ(h, r.value) >= 7 * HistorySize
    ensures r.Some? ==> forall x :: x in h && !IsInheritedName(x) ==> Occ(h, x) <= Occ(h, r.value)
  {
    if |h| < HistorySize then None
    else
      var v := BestOf(CountKeys(h), h);
      CountKeysFacts(h);
      // maxCount / historySize >= 0.7, which the double arithmetic decides exactly for these counts
      if 10 * v.count >= 7 * HistorySize then v.name else None
  }

  /**
   * On a full window, a label is stable exactly when it does not name an
   * Object.prototype member and fills at least 70% of the window; the majority is
   * then unique, so the tie-break never matters.
   */
  lemma StableIffMajority(h: seq<string>, name: string)
    requires |h| == HistorySize
    ensures StableLabel(h) == Some(name) <==> !IsInheritedName(name) && 10 * Occ(h, name) >= 7 * HistorySize
  {
    var keys := CountKeys(h);
    var v := BestOf(keys, h);
    CountKeysFacts(h);
    if !IsInheritedName(name) && 10 * Occ(h, name) >= 7 * HistorySize {
      OccBounds(h, name, name);
      var i :| 0 <= i < |keys| && keys[i] == name;
      assert v.count >= Occ(h, name);
      OccBounds(h, name, v.name.value);
    }
  }

  /** A prediction `makePrediction` keeps: present and at least `minConfidence`. */
  predicate Accepted(r: Option<Result>) {
    r.Some? && r.value.confidence >= MinConfidence
  }

  /** The window after pushing a label and shifting out the oldest beyond `historySize`. */
  function Push(history: seq<string>, name: string): (w: seq<string>)
    ensures |history| <= HistorySize ==> |w| <= HistorySize
    ensures |history| < HistorySize ==> w == history + [name]
    ensures |history| == HistorySize ==> w == history[1..] + [name]
  {
    var h := history + [name];
    if |h| > HistorySize then h[1..] else h
  }

  /** `makePrediction` on the engine state. */
  function Observe(e: Engine, r: Option<Result>): (s: Step)
    ensures !Accepted(r) ==> s == Step(e, None)
    ensures Accepted(r) ==> s.emitted.Some? || s.next == Engine(Push(e.history, r.value.name), e.lastStable)
    ensures s.emitted.Some? <==>
              (&& Accepted(r)
               && |Push(e.history, r.value.name)| >= HistorySize
               && StableLabel(Push(e.history, r.value.name)).Some?
               && StableLabel(Push(e.history, r.value.name)).value != ""
               && StableLabel(Push(e.history, r.value.name)) != e.lastStable)
    ensures s.emitted.Some? ==> s.emitted.value != "" && s.emitted != e.lastStable
    ensures s.emitted.Some? ==> s.next == Engine([], s.emitted)
  {
    if r.None? || r.value.confidence < MinConfidence then Step(e, None)
    else Settle(Engine(Push(e.history, r.value.name), e.lastStable))
  }

  /** A full window whose stable label is non-empty and new is emitted and emptied. */
  function Settle(e: Engine): Step {
    if |e.history| >= HistorySize then
      var stable := StableLabel(e.history);
      if stable.Some? && stable.value != "" && stable != e.lastStable then Step(Engine([], stable), stable)
      else Step(e, None)
    else Step(e, None)
  }

  /** The engine after a run of predictions. */
  function Final(e: Engine, rs: seq<Option<Result>>): Engine {
    if rs == [] then e else Observe(Final(e, rs[..|rs| - 1]), rs[|rs| - 1]).next
  }

  /** The labels a run of predictions emits, in order. */
  function Emitted(e: Engine, rs: seq<Option<Result>>): seq<string> {
    if rs == [] then []
    else
      var s := Observe(Final(e, rs[..|rs| - 1]), rs[|rs| - 1]);
      Emitted(e, rs[..|rs| - 1]) + if s.emitted.Some? then [s.emitted.value] else []
  }

  /** The number of accepted predictions in a run. */
  function AcceptedCount(rs: seq<Option<Result>>): nat {
    if rs == [] then 0 else AcceptedCount(rs[..|rs| - 1]) + if Accepted(rs[|rs| - 1]) then 1 else 0
  }

  /** The window never grows beyond `historySize`. */
  lemma {:induction false} WindowBounded(e: Engine, rs: seq<Option<Result>>)
    requires |e.history| <= HistorySize
    ensures |Final(e, rs).history| <= HistorySize
    decreases |rs|
  {
    if rs != [] {
      WindowBounded(e, rs[..|rs| - 1]);
    }
  }

  lemma EmissionStep(e: Engine, rs: seq<Option<Result>>)
    requires rs != []
    ensures var s := Observe(Final(e, rs[..|rs| - 1]), rs[|rs| - 1]);
            && Final(e, rs) == s.next
            && Emitted(e, rs) == Emitted(e, rs[..|rs| - 1]) + if s.emitted.Some? then [s.emitted.value] else []
  {
  }

  /** No two neighbouring entries are equal. */
  predicate NoAdjacentRepeats(s: seq<string>) {
    forall i :: 0 <= i < |s| - 1 ==> s[i] != s[i + 1]
  }

  lemma AppendNoRepeat(s: seq<string>, x: string)
    requires NoAdjacentRepeats(s) && (s != [] ==> s[|s| - 1] != x)
    ensures NoAdjacentRepeats(s + [x])
  {
    var t := s + [x];
    forall i | 0 <= i < |t| - 1 ensures t[i] != t[i + 1] {
      assert t[i] == s[i];
    }
  }

  /**
   * No label is emitted twice in a row, and the first differs from the last label
   * emitted before the run; `lastStableGesture` is always the latest emission.
   */
  lemma {:induction false} NoRepeatedEmission(e: Engine, rs: seq<Option<Result>>)
    ensures NoAdjacentRepeats(Emitted(e, rs))
    ensures Emitted(e, rs) != [] ==> Some(Emitted(e, rs)[0]) != e.lastStable
    ensures Emitted(e, rs) != [] ==> Final(e, rs).lastStable == Some(Emitted(e, rs)[|Emitted(e, rs)| - 1])
    ensures Emitted(e, rs) == [] ==> Final(e, rs).lastStable == e.lastStable
    decreases |rs|
  {
    if rs != [] {
      var pre := rs[..|rs| - 1];
      NoRepeatedEmission(e, pre);
      var em := Emitted(e, pre);
      var f := Final(e, pre);
      var s := Observe(f, rs[|rs| - 1]);
      EmissionStep(e, rs);
      if s.emitted.Some? {
        var x := s.emitted.value;
        assert Emitted(e, rs) == em + [x];
        assert s.next.lastStable == Some(x);
        if em != [] {
          assert f.lastStable == Some(em[|em| - 1]);
          assert em[|em| - 1] != x;
        }
        AppendNoRepeat(em, x);
      } else {
        assert Emitted(e, rs) == em;
        assert s.next.lastStable == f.lastStable;
      }
    }
  }

  /**
   * While the window plus the accepted predictions stays below `historySize`,
   * nothing is emitted and every accepted label is still in the window.
   */
  lemma {:induction false} QuietUntilFull(e: Engine, rs: seq<Option<Result>>)
    requires |e.history| + AcceptedCount(rs) < HistorySize
    ensures Emitted(e, rs) == []
    ensures |Final(e, rs).history| == |e.history| + AcceptedCount(rs)
    ensures Final(e, rs).lastStable == e.lastStable
    decreases |rs|
  {
    if rs != [] {
      QuietUntilFull(e, rs[..|rs| - 1]);
    }
  }

  /** An emission empties the window, so the next one needs at least `historySize` accepted predictions. */
  lemma EmissionsSpaced(e: Engine, rs: seq<Option<Result>>)
    requires e.history == [] && Emitted(e, rs) != []
    ensures AcceptedCount(rs) >= HistorySize
  {
    if AcceptedCount(rs) < HistorySize {
      QuietUntilFull(e, rs);
    }
  }

  /** A run split in two: the second part starts from where the first left the engine. */
  lemma {:induction false} RunSplit(e: Engine, a: seq<Option<Result>>, b: seq<Option<Result>>)
    ensures Final(e, a + b) == Final(Final(e, a), b)
    ensures Emitted(e, a + b) == Emitted(e, a) + Emitted(Final(e, a), b)
    decreases |b|
  {
    if b == [] {
      assert a + b == a;
    } else {
      var n := |b| - 1;
      assert (a + b)[..|a + b| - 1] == a + b[..n];
      assert (a + b)[|a + b| - 1] == b[n];
      RunSplit(e, a, b[..n]);
    }
  }

  /** A step that emits leaves the window empty and the run's emissions non-empty. */
  lemma StepEmits(e: Engine, rs: seq<Option<Result>>)
    requires rs != [] && Observe(Final(e, rs[..|rs| - 1]), rs[|rs| - 1]).emitted.Some?
    ensures Final(e, rs).history == [] && Emitted(e, rs) != []
  {
    EmissionStep(e, rs);
  }

  /** The step at position `j` of `first + mid` is the last step of `mid`, when `j` is its last position. */
  lemma StepAfterSplit(e: Engine, rs: seq<Option<Result>>, i: nat, j: nat)
    requires i < j < |rs|
    ensures var mid := rs[i + 1..j + 1];
            && mid != []
            && mid[|mid| - 1] == rs[j]
            && Final(Final(e, rs[..i + 1]), mid[..|mid| - 1]) == Final(e, rs[..j])
            && Final(Final(e, rs[..i + 1]), mid) == Final(e, rs[..j + 1])
  {
    var first := rs[..i + 1];
    var mid := rs[i + 1..j + 1];
    assert mid[..|mid| - 1] == rs[i + 1..j];
    assert rs[..j] == first + rs[i + 1..j];
    assert rs[..j + 1] == first + mid;
    RunSplit(e, first, rs[i + 1..j]);
    RunSplit(e, first, mid);
  }

  /**
   * Any two emissions of one run, at steps `i < j`, are separated by at least
   * `historySize` accepted predictions after the first.
   */
  lemma TwoEmissionsSpaced(e: Engine, rs: seq<Option<Result>>, i: nat, j: nat)
    requires i < j < |rs|
    requires Observe(Final(e, rs[..i]), rs[i]).emitted.Some?
    requires Observe(Final(e, rs[..j]), rs[j]).emitted.Some?
    ensures AcceptedCount(rs[i + 1..j + 1]) >= HistorySize
  {
    var first := rs[..i + 1];
    assert first[..|first| - 1] == rs[..i];
    StepEmits(e, first);
    var e1 := Final(e, first);
    var mid := rs[i + 1..j + 1];
    StepAfterSplit(e, rs, i, j);
    StepEmits(e1, mid);
    EmissionsSpaced(e1, mid);
  }

  /** The `counts` loop and the `for ... in` loop of `checkStability`. */
  method MostCommon(h: seq<string>) returns (mostCommon: Option<string>, maxCount: nat)
    ensures Vote(mostCommon, maxCount) == BestOf(CountKeys(h), h)
  {
    var keys: seq<string> := [];
    var counts: map<string, nat> := map[];
    for i := 0 to |h|
      invariant keys == CountKeys(h[..i])
      invariant forall k :: k in counts <==> k in keys
      invariant forall k :: k in counts ==> counts[k] == Occ(h[..i], k)
    {
      var name := h[i];
      assert h[..i + 1][..i] == h[..i];
      CountKeysFacts(h[..i]);
      if !IsInheritedName(name) {
        if name in counts {
          counts := counts[name := counts[name] + 1];
        } else {
          OccBounds(h[..i], name, name);
          counts := counts[name := 1];
          keys := InsertKey(keys, name);
          InsertKeyMembers(CountKeys(h[..i]), name);
        }
      }
    }
    assert h[..|h|] == h;
    mostCommon := None;
    maxCount := 0;
    for j := 0 to |keys|
      invariant Vote(mostCommon, maxCount) == BestOf(keys[..j], h)
    {
      assert keys[..j + 1][..j] == keys[..j];
      if counts[keys[j]] > maxCount {
        maxCount := counts[keys[j]];
        mostCommon := Some(keys[j]);
      }
    }
    assert keys[..|keys|] == keys;
  }

  /** The predictor: its running flag, window, last emission and error record. */
  class GesturePredictor {
    var isActive: bool
    var history: seq<string>
    var lastStable: Option<string>
    var lastError: Option<ErrorRecord>
    var expected: Option<string>
    /** The page's sentence element (`null` when the page lacks it). */
    const sentenceOutput: Output.TextElement?

    ghost predicate Valid()
      reads this
    {
      |history| <= HistorySize
    }

    constructor (sentence: Output.TextElement?)
      ensures Valid()
      ensures !isActive && history == [] && lastStable == None && lastError == None && expected == None
      ensures sentenceOutput == sentence
    {
      isActive := false;
      history := [];
      lastStable := None;
      lastError := None;
      expected := None;
      sentenceOutput := sentence;
    }

    /** `start`: no effect when already running; otherwise the flag is raised (the frame loop is not modelled). */
    method Start()
      modifies this
      ensures isActive
      ensures history == old(history) && lastStable == old(lastStable)
      ensures lastError == old(lastError) && expected == old(expected)
    {
      if isActive {
        return;
      }
      isActive := true;
    }

    /** `reset`: empty window, no last emission, no error, no expected gesture. */
    method Reset()
      modifies this
      ensures Valid()
      ensures history == [] && lastStable == None && lastError == None && expected == None
      ensures isActive == old(isActive)
    {
      history := [];
      lastStable := None;
      lastError := None;
      expected := None;
    }

    /** `stop`: the flag is lowered and the state reset. */
    method Stop()
      modifies this
      ensures Valid()
      ensures !isActive && history == [] && lastStable == None && lastError == None && expected == None
    {
      isActive := false;
      Reset();
    }

    /** `checkStability` on the current window. */
    method CheckStability() returns (stable: Option<string>)
      ensures stable == StableLabel(history)
    {
      if |history| < HistorySize {
        return None;
      }
      var mostCommon, maxCount := MostCommon(history);
      if 10 * maxCount >= 7 * HistorySize {
        return mostCommon;
      }
      return None;
    }

    /** `addToSentence`: the sentence rule of the output panel, on the same element. */
    method AddToSentence(gesture: string)
      modifies sentenceOutput
      ensures sentenceOutput != null ==> sentenceOutput.text == Output.Appended(old(sentenceOutput.text), gesture)
    {
      if sentenceOutput == null {
        return;
      }
      sentenceOutput.text := Output.Appended(sentenceOutput.text, gesture);
    }

    /** `onStableGesture`: the label goes into the sentence and the window is emptied. */
    method OnStableGesture(gesture: string)
      modifies this, sentenceOutput
      ensures history == [] && lastStable == old(lastStable)
      ensures isActive == old(isActive) && lastError == old(lastError) && expected == old(expected)
      ensures sentenceOutput != null ==> sentenceOutput.text == Output.Appended(old(sentenceOutput.text), gesture)
    {
      AddToSentence(gesture);
      history := [];
    }

    /**
     * `makePrediction`, given what `trainer.predict` returned: the window and the
     * last emission move as `Observe` says, and an emitted label is appended to the sentence.
     */
    method MakePrediction(result: Option<Result>)
      requires Valid()
      modifies this, sentenceOutput
      ensures Valid()
      ensures var s := Observe(Engine(old(history), old(lastStable)), result);
              history == s.next.history && lastStable == s.next.lastStable
      ensures var s := Observe(Engine(old(history), old(lastStable)), result);
              sentenceOutput != null ==>
                sentenceOutput.text == if s.emitted.Some? then Output.Appended(old(sentenceOutput.text), s.emitted.value)
                                       else old(sentenceOutput.text)
      ensures isActive == old(isActive) && lastError == old(lastError) && expected == old(expected)
    {
      if result.None? {
        return;
      }
      if result.value.confidence < MinConfidence {
        return;
      }
      history := history + [result.value.name];
      if |history| > HistorySize {
        history := history[1..];
      }
      assert history == Push(old(history), result.value.name);
      SettleWindow();
    }

    /** The stability check of `makePrediction` on the window after the push. */
    method SettleWindow()
      requires Valid()
      modifies this, sentenceOutput
      ensures Valid()
      ensures var s := Settle(Engine(old(history), old(lastStable)));
              history == s.next.history && lastStable == s.next.lastStable
      ensures var s := Settle(Engine(old(history), old(lastStable)));
              sentenceOutput != null ==>
                sentenceOutput.text == if s.emitted.Some? then Output.Appended(old(sentenceOutput.text), s.emitted.value)
                                       else old(sentenceOutput.text)
      ensures isActive == old(isActive) && lastError == old(lastError) && expected == old(expected)
    {
      if |history| >= HistorySize {
        var stable := CheckStability();
        if stable.Some? && stable.value != "" && stable != lastStable {
          OnStableGesture(stable.value);
          lastStable := stable;
        }
      }
    }

    /**
     * `detectError`, with the `showErrorInsights` flag and the clock as parameters: a
     * non-empty expected label that differs from the prediction replaces the record.
     */
    method DetectError(predicted: string, expectedLabel: Option<string>, insightsOn: bool, now: int)
      modifies this
      ensures insightsOn && expectedLabel.Some? && expectedLabel.value != "" && predicted != expectedLabel.value
              ==> lastError == Some(ErrorRecord(expectedLabel.value, predicted, now))
      ensures !(insightsOn && expectedLabel.Some? && expectedLabel.value != "" && predicted != expectedLabel.value)
              ==> lastError == old(lastError)
      ensures isActive == old(isActive) && history == old(history) && lastStable == old(lastStable)
      ensures expected == old(expected)
    {
      if !insightsOn {
        return;
      }
      if expectedLabel.Some? && expectedLabel.value != "" && predicted != expectedLabel.value {
        lastError := Some(ErrorRecord(expectedLabel.value, predicted, now));
      }
    }

    /** `clearSentence`: the placeholder returns and the last emission is forgotten. */
    method ClearSentence()
      modifies this, sentenceOutput
      ensures sentenceOutput != null ==> sentenceOutput.text == Output.Placeholder
      ensures lastStable == None
      ensures isActive == old(isActive) && history == old(history)
      ensures lastError == old(lastError) && expected == old(expected)
    {
      if sentenceOutput != null {
        sentenceOutput.text := Output.Placeholder;
      }
      lastStable := None;
    }
  }
}
