/**
 * The passage lists: loading sentences.txt and long_texts.txt, choosing the
 * passage of a new trial, the main menu's text selection and adding a
 * custom passage.
 */
module Passages {
  import opened Wrappers
  import opened Text
  import opened TypingTrial

  /** The passage used when no sentence is loaded. */
  const DefaultPassage: string := "Default text."

  /** The main menu's first dropdown entry. */
  const RandomEntry: string := "Random"

  /** What load_sentences produces: non-empty and already stripped. */
  predicate IsPassage(s: string) {
    s != [] && Strip(s) == s
  }

  predicate AllPassages(ps: seq<string>) {
    forall i :: 0 <= i < |ps| ==> IsPassage(ps[i])
  }

  predicate Distinct(ps: seq<string>) {
    forall i, j :: 0 <= i < j < |ps| ==> ps[i] != ps[j]
  }

  // ---------------------------------------------------------------------
  // load_sentences

  /** `[line.strip() for line in f if line.strip()]`, over the file's lines. */
  function LoadSentences(lines: seq<string>): (r: seq<string>)
    ensures |r| <= |lines|
    ensures AllPassages(r)
  {
    if lines == [] then []
    else
      var t := Strip(lines[0]);
      StripIdempotent(lines[0]);
      (if t != [] then [t] else []) + LoadSentences(lines[1..])
  }

  /** The strips of the lines, one per line. */
  function StripAll(lines: seq<string>): (r: seq<string>)
    ensures |r| == |lines|
    ensures forall i :: 0 <= i < |lines| ==> r[i] == Strip(lines[i])
  {
    if lines == [] then [] else [Strip(lines[0])] + StripAll(lines[1..])
  }

  /** A loaded entry is exactly the strip of some line that is not blank. */
  lemma {:induction false} LoadSentencesMembers(lines: seq<string>, s: string)
    ensures s in LoadSentences(lines) <==> s != [] && s in StripAll(lines)
  {
    if lines != [] {
      LoadSentencesMembers(lines[1..], s);
      var t := Strip(lines[0]);
      assert StripAll(lines) == [t] + StripAll(lines[1..]);
      assert LoadSentences(lines) == (if t != [] then [t] else []) + LoadSentences(lines[1..]);
    }
  }

  /** Lines that are already passages load unchanged. */
  lemma {:induction false} LoadSentencesOfPassages(ps: seq<string>)
    requires AllPassages(ps)
    ensures LoadSentences(ps) == ps
  {
    if ps != [] {
      assert IsPassage(ps[0]);
      LoadSentencesOfPassages(ps[1..]);
      assert ps == [ps[0]] + ps[1..];
    }
  }

  /** Writing the loaded list back and loading it again changes nothing. */
  lemma LoadSentencesIdempotent(lines: seq<string>)
    ensures LoadSentences(LoadSentences(lines)) == LoadSentences(lines)
  {
    LoadSentencesOfPassages(LoadSentences(lines));
  }

  // ---------------------------------------------------------------------
  // Choosing the passage of a trial (TypingFrame.__init__)

  /** Python truthiness of the `text` argument. */
  predicate Given(text: Option<string>) {
    text.Some? && text.value != []
  }

  /** The list `random.choice` draws from when no text is given. */
  function PassagePool(mode: Mode, longTexts: seq<string>, sentences: seq<string>): (pool: seq<string>)
    ensures pool != []
    ensures mode == Countdown && longTexts != [] ==> pool == longTexts
    ensures !(mode == Countdown && longTexts != []) ==>
              pool == if sentences != [] then sentences else [DefaultPassage]
  {
    if mode == Countdown && longTexts != [] then longTexts
    else if sentences != [] then sentences
    else [DefaultPassage]
  }

  /**
   * A given text wins; otherwise a countdown trial draws from the long
   * texts when there are any, and every other trial from the sentences or,
   * with none loaded, the default passage. `pick` stands for the random draw.
   */
  function ChoosePassage(mode: Mode, text: Option<string>, longTexts: seq<string>,
                         sentences: seq<string>, pick: nat): (p: string)
    ensures Given(text) ==> p == text.value
    ensures !Given(text) ==> p in PassagePool(mode, longTexts, sentences)
  {
    if Given(text) then text.value
    else
      var pool := PassagePool(mode, longTexts, sentences);
      pool[pick % |pool|]
  }

  /** Every passage of the pool is a possible draw. */
  lemma ChoosePassageReachable(mode: Mode, longTexts: seq<string>, sentences: seq<string>, i: nat)
    requires i < |PassagePool(mode, longTexts, sentences)|
    ensures ChoosePassage(mode, None, longTexts, sentences, i) == PassagePool(mode, longTexts, sentences)[i]
  {
    var pool := PassagePool(mode, longTexts, sentences);
    assert i % |pool| == i;
  }

  /** With loaded lists, the passage of a trial is never empty. */
  lemma ChoosePassageNonEmpty(mode: Mode, text: Option<string>, longTexts: seq<string>,
                              sentences: seq<string>, pick: nat)
    requires AllPassages(longTexts) && AllPassages(sentences)
    ensures ChoosePassage(mode, text, longTexts, sentences, pick) != []
  {
    if !Given(text) {
      var pool := PassagePool(mode, longTexts, sentences);
      assert pool[pick % |pool|] != [];
    }
  }

  /** MainMenuFrame.start_with_selected: a stopwatch trial, with the dropdown text unless it is "Random". */
  function MenuSelection(selected: string): (choice: (Mode, Option<string>))
    ensures choice.0 == Stopwatch
    ensures choice.1 == None <==> selected == RandomEntry
  {
    if selected == RandomEntry then (Stopwatch, None) else (Stopwatch, Some(selected))
  }

  /** Picking a non-empty text from the menu makes it the passage to type. */
  lemma MenuSelectionIsTyped(selected: string, longTexts: seq<string>, sentences: seq<string>, pick: nat)
    requires selected != RandomEntry && selected != []
    ensures var (mode, text) := MenuSelection(selected);
            ChoosePassage(mode, text, longTexts, sentences, pick) == selected
  {
  }

  // ---------------------------------------------------------------------
  // MainMenuFrame.add_custom_text (the dialog and the file append left out)

  datatype AddOutcome = Cancelled | Blank | Duplicate | Added

  /**
   * add_custom_text as written: `if custom_text:` is tested before the text
   * is stripped, so whitespace-only input is added as the empty passage.
   */
  function AddCustomTextAsWritten(sentences: seq<string>, input: Option<string>): (r: (seq<string>, AddOutcome))
    ensures r.1 == Added <==> Given(input) && Strip(input.value) !in sentences
    ensures r.0 == if r.1 == Added then sentences + [Strip(input.value)] else sentences
  {
    if !Given(input) then (sentences, Cancelled)
    else
      var t := Strip(input.value);
      if t in sentences then (sentences, Duplicate) else (sentences + [t], Added)
  }

  /** The as-written rule lets a blank passage into a list of loaded passages. */
  lemma AsWrittenAddsBlank(sentences: seq<string>)
    requires AllPassages(sentences)
    ensures AddCustomTextAsWritten(sentences, Some("   ")) == (sentences + [""], Added)
    ensures !AllPassages(AddCustomTextAsWritten(sentences, Some("   ")).0)
  {
    assert Strip("   ") == [] by {
      BlankIffAllSpace("   ");
    }
    var r := sentences + [""];
    assert r[|sentences|] == "";
  }

  /**
   * add_custom_text with the evidently intended check: text that is blank
   * after stripping is refused like a cancelled dialog would be; a stripped
   * text already in the list is a duplicate; anything else is appended.
   */
  function AddCustomText(sentences: seq<string>, input: Option<string>): (r: (seq<string>, AddOutcome))
    ensures r.1 == Added <==> Given(input) && !IsBlank(input.value) && Strip(input.value) !in sentences
    ensures r.1 == Blank <==> Given(input) && IsBlank(input.value)
    ensures r.1 == Cancelled <==> !Given(input)
    ensures r.0 == if r.1 == Added then sentences + [Strip(input.value)] else sentences
  {
    if !Given(input) then (sentences, Cancelled)
    else
      var t := Strip(input.value);
      if t == [] then (sentences, Blank)
      else if t in sentences then (sentences, Duplicate)
      else (sentences + [t], Added)
  }

  /** The corrected rule keeps the list a list of passages, and adds no duplicate. */
  lemma AddCustomTextKeepsPassages(sentences: seq<string>, input: Option<string>)
    requires AllPassages(sentences)
    ensures AllPassages(AddCustomText(sentences, input).0)
    ensures Distinct(sentences) ==> Distinct(AddCustomText(sentences, input).0)
  {
    var (r, outcome) := AddCustomText(sentences, input);
    if outcome == Added {
      StripIdempotent(input.value);
      assert r[|sentences|] == Strip(input.value);
    }
  }

  /** Adding the same text again is reported as a duplicate and changes nothing. */
  lemma AddCustomTextTwice(sentences: seq<string>, input: Option<string>)
    requires AddCustomText(sentences, input).1 == Added
    ensures var once := AddCustomText(sentences, input).0;
            AddCustomText(once, input) == (once, Duplicate)
  {
    var once := AddCustomText(sentences, input).0;
    assert once[|sentences|] == Strip(input.value);
  }
}
