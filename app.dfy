/**
 * The application object (TypingApp together with the main menu's custom
 * text action): the two passage lists it loads at start-up, the shared
 * score file, and the creation of a typing trial.
 */
module Application {
  import opened Wrappers
  import Text
  import opened ScoreLedger
  import opened TypingTrial
  import opened Passages

  class TypingApp {
    var sentences: seq<string>
    var longTexts: seq<string>
    const store: ScoreFile

    /** Both lists hold only loaded passages: non-empty and stripped. */
    ghost predicate Valid()
      reads this
    {
      AllPassages(sentences) && AllPassages(longTexts)
    }

    /**
     * `load_sentences` of sentences.txt and long_texts.txt, given as their
     * lines (the empty list for a missing file).
     */
    constructor (sentenceLines: seq<string>, longTextLines: seq<string>, store: ScoreFile)
      ensures Valid()
      ensures sentences == LoadSentences(sentenceLines)
      ensures longTexts == LoadSentences(longTextLines)
      ensures this.store == store
    {
      sentences := LoadSentences(sentenceLines);
      longTexts := LoadSentences(longTextLines);
      this.store := store;
    }

    /**
     * add_custom_text: `input` is the dialog's answer (None on cancel); an
     * accepted text is appended to the in-memory sentence list.
     */
    method AddCustomText(input: Option<string>) returns (outcome: AddOutcome)
      requires Valid()
      modifies this
      ensures Valid() && longTexts == old(longTexts)
      ensures (sentences, outcome) == Passages.AddCustomText(old(sentences), input)
    {
      AddCustomTextKeepsPassages(sentences, input);
      if !Given(input) {
        return Cancelled;
      }
      var custom := Text.Strip(input.value);
      if custom == [] {
        return Blank;
      }
      if custom in sentences {
        return Duplicate;
      }
      sentences := sentences + [custom];
      outcome := Added;
    }

    /**
     * switch_frame(TypingFrame, mode=..., text=...): a trial on the chosen
     * passage, not yet started, writing to the shared score file.
     */
    method StartTrial(mode: Mode, text: Option<string>, pick: nat) returns (trial: Trial)
      requires Valid()
      ensures fresh(trial) && trial.Valid() && trial.Phase() == NotStarted
      ensures trial.mode == mode && trial.store == store
      ensures trial.reference == ChoosePassage(mode, text, longTexts, sentences, pick)
      ensures trial.reference != []
    {
      ChoosePassageNonEmpty(mode, text, longTexts, sentences, pick);
      trial := new Trial(mode, ChoosePassage(mode, text, longTexts, sentences, pick), store);
    }
  }
}
