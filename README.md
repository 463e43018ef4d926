# Typing test: trial engine, metrics and score ledger

A Dafny model of the logic inside a Tkinter typing-test application
(`main.py`). The window code is not modelled. The model covers:

- **Metrics** (`metrics.dfy`). The result arithmetic of `calculate_results`:
  - correct characters, counted over `zip(typed, reference)`;
  - accuracy in percent, 0 for an empty reference;
  - words per minute, `(len(typed) / 5) / minutes`, with a one-minute floor
    when no positive time has elapsed.

  All of it is over exact `real` numbers.
- **Highlighting** (`highlight.dfy`). The loop in `check_typing` that tags
  every reference character as correct, wrong or not yet typed.
- **Score ledger** (`ledger.dfy`). `save_score` appends a record, sorts all
  records by WPM (descending, stable) and keeps the first five.
  `get_high_score` returns the largest WPM, or 0 for no rows. The file
  `scores.csv` is an object (`ScoreFile`) whose `rows` the trial rewrites.
- **Trial** (`trial.dfy`). The class `Trial` holds the fields `start_time`
  and `running`, and has these methods:
  - `KeyRelease` (`check_typing`);
  - `StartTimer` (`start_timer`);
  - `Tick` (`update_timer`);
  - `Finish` (`calculate_results`);
  - `SaveScore` (`save_score`).

  The phase moves NotStarted → Running → Finished and never back. The
  countdown finishes itself. Finishing saves exactly one record.
- **Passages** (`passages.dfy`, `app.dfy`). These cover:
  - `load_sentences`' strip-and-drop-blank filter;
  - the choice of a trial's passage;
  - the main menu's text selection;
  - `add_custom_text`, in the application object `TypingApp`.
- **Text** (`text.dfy`). Python's `str.strip()`, with the exact set of
  characters `str.isspace()` accepts.

Time and randomness are parameters:
- `time.time()` is the argument `now`;
- `random.choice(pool)` is `pool[pick % |pool|]` for an arbitrary `pick`;
- Tk's `after(100, self.update_timer)` is the boolean `Tick` returns (true
  when it reschedules itself);
- the entry widget's text at an event is the argument `text` or `typed`.

`Tick` takes the entry text as well, because a countdown tick that finishes
the trial computes the result from the text typed at that moment.

`Metrics.WorkedExamples` proves that "abc" typed with no elapsed time gives
(3 / 5) / 1 = 0.6 WPM, because the one-minute floor applies.

The elapsed time of a result follows `if self.start_time`: a start instant
of exactly 0.0 is falsy in Python, so a trial started at that instant is
saved with elapsed time 0 and the one-minute WPM floor
(`TypingTrial.ZeroStartSavesNoTime`).

`TypingTrial.CountdownScenario` runs one countdown trial end to end on the
class: a keystroke starts it, a tick at 60 seconds finishes it with exactly
one saved record, and a later Return or keystroke saves and restarts nothing.

## Model

| member | source | states |
|---|---|---|
| `Text.Start` | main.py:77 | the leading run it measures is whitespace only and stops at the first non-whitespace character or the end |
| `Text.End` | main.py:77 | the trailing run it starts is whitespace only and begins right after the last non-whitespace character or at 0 |
| `Text.Strip` | main.py:77 | the result is no longer than the input and has no whitespace at either end |
| `Text.StripUnique` | main.py:77 | the strip is the one slice of the input with whitespace only before and after it and none at its own ends (empty for an all-whitespace input) |
| `Text.StripOfTrimmed` | main.py:77 | a text with no whitespace at either end is its own strip |
| `Text.BlankIffAllSpace` | main.py:244 | `text.strip()` is empty exactly when every character is whitespace, so a keystroke starts the trial only if some character is not whitespace |
| `Text.StripIdempotent` | main.py:152 | stripping an already stripped text changes nothing |
| `Metrics.CorrectCount` | main.py:270 | the count of matching positions is at most the typed length and at most the reference length, because `zip` stops at the shorter string |
| `Metrics.Accuracy` | main.py:271 | accuracy lies in [0, 100], is 0 for an empty reference, and otherwise is 100 times correct / reference length |
| `Metrics.Minutes` | main.py:273 | the divisor is always positive: elapsed/60 when elapsed > 0, else exactly 1 |
| `Metrics.Wpm` | main.py:272-274 | WPM is never negative, and WPM × minutes × 5 equals the number of typed characters, so there is never a division by zero |
| `Metrics.CorrectCountIgnoresOverflow` | main.py:270 | characters typed past the end of the reference never change the correct count |
| `Metrics.CorrectCountAllMatch` | main.py:270 | the count equals the number of compared positions exactly when the shorter string is a prefix of the other |
| `Metrics.PerfectAccuracy` | main.py:270-271 | accuracy is 100 exactly when the reference is non-empty and the typed text starts with the whole reference |
| `Metrics.WpmMonotoneInLength` | main.py:272-274 | for a fixed elapsed time, a longer typed text never has a lower WPM |
| `Metrics.WpmAntitoneInTime` | main.py:272-274 | for a fixed text and positive times, a later finish never has a higher WPM |
| `Metrics.WpmWithoutElapsedTime` | main.py:273-274 | with elapsed ≤ 0 the one-minute floor applies: WPM = len(typed) / 5 |
| `Metrics.WorkedExamples` | main.py:270-274 | "abc" for "abc" in 0 s gives 100 % and 0.6 WPM; "cap" for "cat" in 30 s gives 200/3 % and 1.2 WPM |
| `Highlight.Classify` | main.py:251-256 | one tag per reference character: Correct iff typed there and equal, Wrong iff typed there and different, Untyped iff not typed yet; the number of Correct tags is the correct count of the result |
| `Highlight.CorrectTagsAreCorrectCount` | main.py:251-256 | any tagging of that shape has exactly `CorrectCount(typed, reference)` Correct tags |
| `ScoreLedger.InsertDescPermutation` | main.py:295 | inserting one record into a list yields exactly the old records plus that one |
| `ScoreLedger.SortDesc` | main.py:295 | `sorted(..., key=WPM, reverse=True)` built by insertion; its own contract keeps the length, and the sort's properties are the three lemmas below |
| `ScoreLedger.SortDescPermutation` | main.py:295 | the sorted list is a permutation of the input |
| `ScoreLedger.InsertDescSorted` | main.py:295 | inserting into a best-first list keeps it best first |
| `ScoreLedger.InsertDescStable` | main.py:295 | inserting places the new record after every record of the same WPM and keeps their order |
| `ScoreLedger.SortDescSorted` | main.py:295 | the sorted list is non-increasing in WPM |
| `ScoreLedger.SortDescStable` | main.py:295 | for every WPM value, records with that value keep their input order (Python's `sorted` is stable, also with `reverse=True`) |
| `ScoreLedger.SortDescOfSorted` | main.py:295 | sorting a list that is already best-first returns it unchanged |
| `ScoreLedger.CountAtLeastSortDesc` | main.py:295 | sorting keeps the number of records at or above any WPM |
| `ScoreLedger.Insert` | main.py:294-295 | after a save the file has min(n + 1, 5) rows, is sorted best first, and holds only old rows and the new record |
| `ScoreLedger.AppendedSortSplit` | main.py:295 | sorting the old rows plus the new record is the sorted old rows with the new record placed after the k rows at or above its WPM |
| `ScoreLedger.InsertIsStablePrefix` | main.py:294-295 | the saved rows are a prefix of the stable descending sort of old rows ++ [new], in which equal-WPM records keep their prior order and the new one comes after them |
| `ScoreLedger.InsertRank` | main.py:294-295 | with k old records at or above the new WPM, the new record is kept exactly when k < 5, at index k behind the unchanged sorted top k; otherwise the file becomes the old sorted top five |
| `ScoreLedger.InsertIntoLedger` | main.py:294-295 | on a sorted file of at most five rows a save inserts the record at its rank and drops a sixth row |
| `ScoreLedger.InsertBelowFullLedger` | main.py:294-295 | a full file is left unchanged by a record no better than its fifth row |
| `ScoreLedger.HighScore` | main.py:89-96 | 0 for no rows; otherwise at least every row's WPM and equal to one of them |
| `ScoreLedger.HighScoreOfPermutation` | main.py:89-96 | the high score depends only on which rows there are, not on their order |
| `ScoreLedger.HighScoreAppend` | main.py:89-96 | one more row makes the high score the larger of the old one and the row's WPM |
| `ScoreLedger.HighScoreOfLedger` | main.py:89-96 | on a best-first file the high score is the first row's WPM |
| `ScoreLedger.HighScoreAfterInsert` | main.py:89-96 | after a save the high score is the larger of the old high score and the new WPM (the new WPM when there were no rows) |
| `ScoreLedger.ScoreFile.constructor` | main.py:289-292 | the score file holds the given rows (none for a missing file) |
| `TypingTrial.TimeLimit` | main.py:184 | a limit exists exactly in countdown mode, and it is 60 s |
| `TypingTrial.ElapsedAt` | main.py:267 | the elapsed time is 0 exactly when the start is unset, is the instant 0.0 (falsy), or equals `now`; otherwise start + elapsed = now |
| `TypingTrial.ZeroStartSavesNoTime` | main.py:267-274 | a trial started at instant 0.0 is saved with elapsed 0 and WPM = len(typed) / 5 |
| `TypingTrial.Trial.TimesUp` | main.py:229-234 | a tick finds the countdown expired exactly when the trial runs in countdown mode and at least 60 s have passed since the start |
| `TypingTrial.Remaining` | main.py:232-234 | the countdown shown is max(0, limit − elapsed): never negative, at most the limit once elapsed ≥ 0, and ≤ 0 exactly when elapsed reaches the limit |
| `TypingTrial.TrialRecord` | main.py:267-274 | the saved record has the elapsed time, a non-negative WPM and an accuracy in [0, 100] (0 for an empty passage) |
| `TypingTrial.Trial.constructor` | main.py:181-184 | a new trial is NotStarted and not running, with a 60 s limit in countdown mode and none in stopwatch mode |
| `TypingTrial.Trial.StartTimer` | main.py:219-225 | when not running, the start becomes `now`, the trial runs and the first tick reschedules; when running it does nothing; no record is saved |
| `TypingTrial.Trial.Tick` | main.py:227-240 | a tick on a stopped trial neither reschedules nor changes anything; a countdown tick with no time left finishes the trial, saves its record and does not reschedule; every other running tick reschedules and changes nothing; a stopwatch tick never finishes; the phase never moves back |
| `TypingTrial.Trial.KeyRelease` | main.py:242-256 | the trial starts, at `now`, exactly when there is no start instant yet and the text is not blank; otherwise the state is unchanged, so a finished trial never restarts; the returned tags are the colouring of the reference |
| `TypingTrial.Trial.Finish` | main.py:261-282 | when running: stops and saves exactly the computed record into the score file; when not running (not started, or already finished): returns nothing and saves nothing |
| `TypingTrial.Trial.SaveScore` | main.py:284-300 | the score file becomes the top five of its rows plus the record |
| `Passages.LoadSentences` | main.py:71-79 | no more entries than lines, and every entry is non-empty and stripped |
| `Passages.LoadSentencesMembers` | main.py:77 | a text is loaded exactly when it is non-empty and is the strip of some line |
| `Passages.LoadSentencesOfPassages` | main.py:77 | a list of non-empty stripped lines loads unchanged |
| `Passages.LoadSentencesIdempotent` | main.py:77 | loading a loaded list again changes nothing |
| `Passages.PassagePool` | main.py:174-177 | the draw pool is never empty, whatever lists are loaded (its other clauses only spell out the priority: long texts for a countdown, then the sentences, then ["Default text."]) |
| `Passages.ChoosePassage` | main.py:171-177 | a given non-empty text is the passage; otherwise the passage is a member of the pool |
| `Passages.ChoosePassageReachable` | main.py:175-177 | every passage of the pool can be drawn |
| `Passages.ChoosePassageNonEmpty` | main.py:171-177 | with loaded lists the chosen passage is never empty |
| `Passages.MenuSelection` | main.py:139-146 | the menu always starts a stopwatch trial, and passes no text exactly when "Random" is selected |
| `Passages.MenuSelectionIsTyped` | main.py:139-146 | a non-empty selection other than "Random" becomes the passage |
| `Passages.AddCustomTextAsWritten` | main.py:148-159 | as written: a non-empty answer whose strip is not in the list is appended stripped; otherwise the list is unchanged |
| `Passages.AsWrittenAddsBlank` | main.py:150-159 | as written, the answer "   " appends the empty passage to a list of loaded passages |
| `Passages.AddCustomText` | main.py:148-159 | corrected: cancelled exactly for no or empty answer, refused exactly when the strip is blank, appended exactly when the strip is new, and otherwise unchanged |
| `Passages.AddCustomTextKeepsPassages` | main.py:151-159 | the corrected rule keeps every sentence non-empty and stripped and adds no duplicate |
| `Passages.AddCustomTextTwice` | main.py:153-156 | adding the same text a second time is a duplicate and changes nothing |
| `Application.TypingApp.constructor` | main.py:63-65 | both lists are `load_sentences` of their files, so they hold only non-empty stripped passages |
| `Application.TypingApp.AddCustomText` | main.py:148-159 | the sentence list and the outcome are those of the corrected rule; the lists stay lists of passages |
| `Application.TypingApp.StartTrial` | main.py:166-184 | a fresh, not started trial on the chosen passage, which is never empty under the corrected custom-text rule, sharing the application's score file |

## Findings

| source | as written | input that shows it | evidently intended | confidence | as-written member | corrected member |
|---|---|---|---|---|---|---|
| main.py:150-159 | `if custom_text:` is tested before `custom_text.strip()`, so whitespace-only input passes and the empty string is appended to `sentences` (and a blank line to the file) | the dialog answer `"   "` when `""` is not yet in the list | refuse text that is blank after stripping | medium, not executed | `Passages.AsWrittenAddsBlank` | `Passages.AddCustomText` |

A blank passage can later be drawn by `random.choice`. The trial then runs on
an empty reference, so its accuracy is always 0. `TypingApp.AddCustomText`
uses the corrected rule. With it, every passage stays non-empty
(`StartTrial` proves this).

## Left out

- Tkinter widgets, labels, colours and text tags: the colouring is returned as a sequence of tags, and the timer label's value is `Remaining`.
- `HistoryFrame`: the Matplotlib graph and the table are presentation only.
- CSV reading and writing, `os.path.exists` and the append to `sentences.txt`: the score file is an object holding its rows (none for a missing file), and the passage files are given as lists of lines.
- The `:.2f` rounding of stored records: records keep exact values, so the sort key is the exact WPM, not the rounded one.
- Floating point: all arithmetic is exact over `real`, with no NaN or infinity.
- `time.time()` and `random.choice`: they are the parameters `now` and `pick`.
- Logging, `simpledialog`, `messagebox` and `switch_frame`'s frame bookkeeping.
- Disabling the entry after finishing: the entry text is a parameter of every event, so the model does not stop it from changing.
- Leaving a running trial with "Back to Menu": the pending `after` callback on the destroyed frame is not modelled.
- The falling-word arcade mode: it is not part of `main.py`.
- Application.TypingApp.AddCustomText: the application object applies the corrected rule, so `TypingApp.Valid()` (every passage non-empty) and `StartTrial`'s non-empty passage hold for the corrected program only; as written, the answer "   " puts "" into `sentences` and `random.choice` can then draw it (see Findings).
- TypingTrial.Remaining: the bound remaining ≤ limit is stated only for elapsed ≥ 0, because `time.time()` is a wall clock that can step backwards; for a negative elapsed time the source shows more than 60 s.
- TypingTrial.Trial.StartTimer: it is guarded by `running` alone, as in the source. The protection against restarting a finished trial comes from `check_typing`'s `start_time is None` test, so only `KeyRelease` promises it.
