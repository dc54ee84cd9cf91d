/**
 * The prediction display and the sentence builder (js/ui/output.js). Each page
 * element is modelled by its text content alone.
 */
module Output {
  import opened Wrappers
  import opened JsText

  /** The text of the empty-state paragraph that `clearSentence` installs. */
  const Placeholder := "Gestures will appear here..."

  /**
   * The symbol `resetDisplay` shows. The source file spells an em dash in a
   * mis-decoded form: the three characters U+00E2, U+20AC, U+201D.
   */
  const ResetSymbol := "\U{E2}\U{20AC}\U{201D}"

  const ZeroPercent := "0%"

  /** A page element, reduced to its `textContent`. */
  class TextElement {
    var text: string

    constructor (initial: string)
      ensures text == initial
    {
      text := initial;
    }
  }

  /** The text `addToSentence` writes: the word alone over an empty or placeholder sentence, else after a space. */
  function Appended(text: string, word: string): (r: string)
    ensures SentenceOf(text) == "" ==> r == word
    ensures SentenceOf(text) != "" ==> r == SentenceOf(text) + " " + word
  {
    var current := Trim(text);
    if current == "" || current == Placeholder then word else current + " " + word
  }

  /** The sentence `getCurrentSentence` reads off the element's text. */
  function SentenceOf(text: string): (r: string)
    ensures IsTrimmed(r) && r != Placeholder
    ensures r == "" <==> Trim(text) == "" || Trim(text) == Placeholder
    ensures r != "" ==> r == Trim(text)
  {
    var t := Trim(text);
    if t == Placeholder then "" else t
  }

  /** The words joined by single spaces. */
  function Join(ws: seq<string>): string {
    if |ws| == 0 then ""
    else if |ws| == 1 then ws[0]
    else Join(ws[..|ws| - 1]) + " " + ws[|ws| - 1]
  }

  /** The text after adding `ws` one by one to an element holding `text`. */
  function AppendAll(text: string, ws: seq<string>): string {
    if ws == [] then text else Appended(AppendAll(text, ws[..|ws| - 1]), ws[|ws| - 1])
  }

  /** Words a sign produces: non-empty, with no surrounding whitespace. */
  predicate PlainWords(ws: seq<string>) {
    forall i :: 0 <= i < |ws| ==> ws[i] != "" && IsTrimmed(ws[i])
  }

  /** Adding a plain word after a plain sentence other than the placeholder joins them with a space. */
  lemma AppendJoined(sentence: string, word: string)
    requires IsTrimmed(sentence) && sentence != "" && sentence != Placeholder
    requires IsTrimmed(word) && word != ""
    ensures Appended(sentence, word) == sentence + " " + word
    ensures IsTrimmed(sentence + " " + word) && sentence + " " + word != ""
  {
    TrimOfTrimmed(sentence);
    JoinedIsTrimmed(sentence, word);
  }

  lemma PlainPrefix(ws: seq<string>, n: nat)
    requires PlainWords(ws) && n <= |ws|
    ensures PlainWords(ws[..n])
  {
    assert forall i :: 0 <= i < n ==> ws[..n][i] == ws[i];
  }

  /** The join of plain words is non-empty and has no surrounding whitespace. */
  lemma {:induction false} JoinPlain(ws: seq<string>)
    requires PlainWords(ws) && ws != []
    ensures IsTrimmed(Join(ws)) && Join(ws) != ""
    decreases |ws|
  {
    if |ws| > 1 {
      var n := |ws| - 1;
      PlainPrefix(ws, n);
      JoinPlain(ws[..n]);
      JoinedIsTrimmed(Join(ws[..n]), ws[n]);
    }
  }

  lemma FirstWord(ws: seq<string>)
    requires |ws| == 1
    ensures AppendAll(Placeholder, ws) == Join(ws)
  {
    assert ws[..0] == [];
    AppendOverPlaceholder(ws[0]);
  }

  /** No leading run of `ws` shorter than `ws` itself joins to the placeholder text. */
  predicate EarlyRunsClear(ws: seq<string>)
    decreases |ws|
  {
    |ws| <= 1 || (EarlyRunsClear(ws[..|ws| - 1]) && Join(ws[..|ws| - 1]) != Placeholder)
  }

  /** `EarlyRunsClear` says exactly that every proper leading run joins to something other than the placeholder. */
  lemma {:induction false} EarlyRunsClearMeans(ws: seq<string>)
    ensures EarlyRunsClear(ws) <==> forall k :: 1 <= k < |ws| ==> Join(ws[..k]) != Placeholder
    decreases |ws|
  {
    if |ws| > 1 {
      var n := |ws| - 1;
      EarlyRunsClearMeans(ws[..n]);
      assert forall k :: 1 <= k < n ==> ws[..n][..k] == ws[..k];
    }
  }

  /** Added one by one after a clear, plain words build their join while no earlier run spells the placeholder. */
  lemma {:induction false} AppendAllJoins(ws: seq<string>)
    requires PlainWords(ws) && ws != [] && EarlyRunsClear(ws)
    ensures AppendAll(Placeholder, ws) == Join(ws)
    decreases |ws|
  {
    if |ws| == 1 {
      FirstWord(ws);
    } else {
      var n := |ws| - 1;
      var pre := ws[..n];
      PlainPrefix(ws, n);
      AppendAllJoins(pre);
      JoinPlain(pre);
      AppendJoined(Join(pre), ws[n]);
    }
  }

  /**
   * After the sentence is cleared, adding plain words w1 .. wn makes the current
   * sentence "w1 ... wn", unless some leading run of them spells the placeholder.
   */
  lemma SentenceIsJoin(ws: seq<string>)
    requires PlainWords(ws) && EarlyRunsClear(ws) && Join(ws) != Placeholder
    ensures SentenceOf(AppendAll(Placeholder, ws)) == Join(ws)
  {
    if ws == [] {
      assert AppendAll(Placeholder, ws) == Placeholder;
      PlaceholderSentence();
    } else {
      AppendAllJoins(ws);
      JoinPlain(ws);
      SentenceOfTrimmed(Join(ws));
    }
  }

  lemma SentenceOfTrimmed(t: string)
    requires IsTrimmed(t) && t != Placeholder
    ensures SentenceOf(t) == t
  {
    TrimOfTrimmed(t);
  }

  lemma PlaceholderSentence()
    ensures SentenceOf(Placeholder) == ""
  {
    TrimOfTrimmed(Placeholder);
  }

  lemma AppendOverPlaceholder(word: string)
    ensures Appended(Placeholder, word) == word
  {
    TrimOfTrimmed(Placeholder);
  }

  lemma AppendAfter(text: string, word: string)
    requires IsTrimmed(text) && text != "" && text != Placeholder
    ensures Appended(text, word) == text + " " + word
  {
    TrimOfTrimmed(text);
  }

  /**
   * The words of the placeholder, signed one by one after a clear, rebuild the
   * placeholder text, so the current sentence reads as empty.
   */
  lemma PlaceholderWordsVanish(ws: seq<string>)
    requires ws == ["Gestures", "will", "appear", "here..."]
    ensures SentenceOf(AppendAll(Placeholder, ws)) == ""
  {
    assert Join(ws[..1]) == "Gestures" by {
      assert ws[..1] == ["Gestures"];
    }
    assert Join(ws[..2]) == "Gestures will" by {
      assert ws[..2][..1] == ws[..1];
    }
    assert Join(ws[..3]) == "Gestures will appear" by {
      assert ws[..3][..2] == ws[..2];
    }
    assert Join(ws) == Placeholder by {
      assert ws[..|ws| - 1] == ws[..3];
    }
    assert EarlyRunsClear(ws) by {
      EarlyRunsClearMeans(ws);
    }
    AppendAllJoins(ws);
    PlaceholderSentence();
  }

  /** The three output elements; each is `null` when the page lacks it. */
  class OutputManager {
    const predictionSymbol: TextElement?
    const confidenceValue: TextElement?
    const sentenceOutput: TextElement?

    /** The elements that are present are distinct. */
    ghost predicate Valid() {
      (predictionSymbol != null && confidenceValue != null ==> predictionSymbol != confidenceValue)
      && (predictionSymbol != null && sentenceOutput != null ==> predictionSymbol != sentenceOutput)
      && (confidenceValue != null && sentenceOutput != null ==> confidenceValue != sentenceOutput)
    }

    /** The constructor takes the three page lookups. */
    constructor (symbol: TextElement?, confidence: TextElement?, sentence: TextElement?)
      requires symbol != null && confidence != null ==> symbol != confidence
      requires symbol != null && sentence != null ==> symbol != sentence
      requires confidence != null && sentence != null ==> confidence != sentence
      ensures Valid()
      ensures predictionSymbol == symbol && confidenceValue == confidence && sentenceOutput == sentence
    {
      predictionSymbol := symbol;
      confidenceValue := confidence;
      sentenceOutput := sentence;
    }

    /** `addToSentence`: no effect without the element; otherwise the word is appended. */
    method AddToSentence(word: string)
      modifies sentenceOutput
      ensures sentenceOutput != null ==> sentenceOutput.text == Appended(old(sentenceOutput.text), word)
    {
      if sentenceOutput == null {
        return;
      }
      sentenceOutput.text := Appended(sentenceOutput.text, word);
    }

    /** `clearSentence`: the element shows the placeholder. */
    method ClearSentence()
      modifies sentenceOutput
      ensures sentenceOutput != null ==> sentenceOutput.text == Placeholder
    {
      if sentenceOutput != null {
        sentenceOutput.text := Placeholder;
      }
    }

    /** `getCurrentSentence`: empty without the element or while it shows the placeholder, else the trimmed text. */
    function GetCurrentSentence(): (r: string)
      reads this, sentenceOutput
      ensures IsTrimmed(r) && r != Placeholder
      ensures sentenceOutput == null ==> r == ""
      ensures sentenceOutput != null ==>
                (r == "" <==> Trim(sentenceOutput.text) == "" || Trim(sentenceOutput.text) == Placeholder)
      ensures r != "" ==> sentenceOutput != null && r == Trim(sentenceOutput.text)
    {
      if sentenceOutput == null then "" else SentenceOf(sentenceOutput.text)
    }

    /** `resetDisplay`: the dash, "0%", and the placeholder sentence, for each element present. */
    method ResetDisplay()
      requires Valid()
      modifies predictionSymbol, confidenceValue, sentenceOutput
      ensures predictionSymbol != null ==> predictionSymbol.text == ResetSymbol
      ensures confidenceValue != null ==> confidenceValue.text == ZeroPercent
      ensures sentenceOutput != null ==> sentenceOutput.text == Placeholder
      ensures GetCurrentSentence() == ""
    {
      if predictionSymbol != null {
        predictionSymbol.text := ResetSymbol;
      }
      if confidenceValue != null {
        confidenceValue.text := ZeroPercent;
      }
      ClearSentence();
      TrimOfTrimmed(Placeholder);
    }

    /** The empty-check of `exportSentence`: the text to copy, or nothing when the sentence is empty. */
    method ExportSentence() returns (r: Option<string>)
      ensures r.None? <==> GetCurrentSentence() == ""
      ensures r.Some? ==> r.value == GetCurrentSentence() && r.value != "" && r.value != Placeholder
    {
      var sentence := GetCurrentSentence();
      if sentence == "" {
        return None;
      }
      r := Some(sentence);
    }
  }
}
