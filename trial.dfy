/**
 * The state of one typing trial (TypingFrame): it starts on the first key
 * release whose entry text is not blank, a 100 ms timer tick follows it
 * while it runs, and it finishes on Return or, in countdown mode, when the
 * tick finds no time left. Finishing computes the result and saves it to
 * the score file once.
 *
 * `time.time()` is the parameter `now`; the entry's text at the moment of
 * an event is the parameter `text` or `typed`; Tk's `after(100, ...)` is
 * the boolean a tick returns (true: it scheduled itself again).
 */
module TypingTrial {
  import opened Wrappers
  import opened Text
  import opened Metrics
  import opened Highlight
  import opened ScoreLedger

  datatype Mode = Stopwatch | Countdown

  datatype Phase = NotStarted | Running | Finished

  /** `60 if mode == "countdown" else None`. */
  function TimeLimit(mode: Mode): (limit: Option<real>)
    ensures limit.Some? <==> mode == Countdown
    ensures limit.Some? ==> limit.value == 60.0
  {
    if mode == Countdown then Some(60.0) else None
  }

  /** Phases only move forward: NotStarted, Running, Finished. */
  predicate Advances(before: Phase, after: Phase) {
    before == after || before == NotStarted || (before == Running && after == Finished)
  }

  /**
   * `time.time() - self.start_time if self.start_time else 0`: Python
   * treats an unset start and a start at instant 0.0 alike.
   */
  function ElapsedAt(start: Option<real>, now: real): (e: real)
    ensures e == 0.0 <==> start.None? || start.value == 0.0 || now == start.value
    ensures start.Some? && start.value != 0.0 ==> e + start.value == now
  {
    if start.Some? && start.value != 0.0 then now - start.value else 0.0
  }

  /**
   * A trial whose start instant is exactly 0.0 is saved as if no time had
   * passed: elapsed 0, and the WPM of the one-minute floor.
   */
  lemma ZeroStartSavesNoTime(reference: string, typed: string, now: real)
    ensures ElapsedAt(Some(0.0), now) == 0.0
    ensures TrialRecord(reference, typed, ElapsedAt(Some(0.0), now)).wpm == (|typed| as real) / CharsPerWord
  {
    WpmWithoutElapsedTime(typed, 0.0);
  }

  /** `max(0, self.time_limit - elapsed)`: the countdown shown by a tick. */
  function Remaining(limit: real, elapsed: real): (r: real)
    ensures r >= 0.0 && r >= limit - elapsed
    ensures r == 0.0 || r == limit - elapsed
    ensures 0.0 <= elapsed ==> r <= if limit < 0.0 then 0.0 else limit
    ensures r <= 0.0 <==> elapsed >= limit
  {
    if limit - elapsed > 0.0 then limit - elapsed else 0.0
  }

  /** The record calculate_results saves: time, WPM and accuracy of the trial. */
  function TrialRecord(reference: string, typed: string, elapsed: real): (r: ScoreRecord)
    ensures r.time == elapsed
    ensures r.wpm >= 0.0 && 0.0 <= r.accuracy <= 100.0
    ensures reference == [] ==> r.accuracy == 0.0
  {
    ScoreRecord(elapsed, Wpm(typed, elapsed), Accuracy(typed, reference))
  }

  class Trial {
    const mode: Mode
    const reference: string
    const timeLimit: Option<real>
    /** scores.csv, which save_score reads and rewrites. */
    const store: ScoreFile
    var startTime: Option<real>
    var running: bool

    /** A running trial has a start instant; the limit is fixed by the mode. */
    ghost predicate Valid()
      reads this
    {
      timeLimit == TimeLimit(mode) && (running ==> startTime.Some?)
    }

    function Phase(): Phase
      reads this
    {
      if startTime.None? then NotStarted else if running then Running else Finished
    }

    /** A tick at `now` would find the countdown expired. */
    predicate TimesUp(now: real)
      requires Valid()
      reads this
      ensures TimesUp(now) <==> running && mode == Countdown && now >= startTime.value + 60.0
    {
      running && mode == Countdown && Remaining(timeLimit.value, now - startTime.value) <= 0.0
    }

    constructor (mode: Mode, reference: string, store: ScoreFile)
      ensures Valid() && Phase() == NotStarted && !running
      ensures this.mode == mode && this.reference == reference && this.store == store
    {
      this.mode := mode;
      this.reference := reference;
      this.store := store;
      timeLimit := TimeLimit(mode);
      startTime := None;
      running := false;
    }

    /** start_timer: guarded by `running` only; it runs the first tick at once. */
    method StartTimer(now: real, typed: string) returns (reschedule: bool)
      requires Valid()
      modifies this, store
      ensures Valid()
      ensures !old(running) ==> startTime == Some(now) && running && reschedule
      ensures old(running) ==> startTime == old(startTime) && running && !reschedule
      ensures store.rows == old(store.rows)
    {
      if !running {
        startTime := Some(now);
        running := true;
        reschedule := Tick(now, typed);
      } else {
        reschedule := false;
      }
    }

    /**
     * update_timer: while running, a countdown tick with no time left
     * finishes the trial and stops; every other running tick reschedules.
     * A stopwatch tick never finishes the trial.
     */
    method Tick(now: real, typed: string) returns (reschedule: bool)
      requires Valid()
      modifies this, store
      ensures Valid() && startTime == old(startTime)
      ensures reschedule == (old(running) && !old(TimesUp(now)))
      ensures old(TimesUp(now)) ==>
                && !running
                && store.rows == Insert(old(store.rows), TrialRecord(reference, typed, ElapsedAt(startTime, now)))
      ensures !old(TimesUp(now)) ==> running == old(running) && store.rows == old(store.rows)
      ensures mode == Stopwatch ==> running == old(running)
      ensures Advances(old(Phase()), Phase())
    {
      if running {
        var elapsed := now - startTime.value;
        if mode == Countdown {
          var remaining := Remaining(timeLimit.value, elapsed);
          if remaining <= 0.0 {
            var record := Finish(now, typed);
            return false;
          }
        }
        reschedule := true;
      } else {
        reschedule := false;
      }
    }

    /**
     * check_typing: the first non-blank entry text starts the trial (never
     * again once a start instant is set); every key release recomputes the
     * colouring of the reference.
     */
    method KeyRelease(text: string, now: real) returns (tags: seq<Tag>, loopStarted: bool)
      requires Valid()
      modifies this, store
      ensures Valid()
      ensures IsClassification(reference, text, tags)
      ensures loopStarted == (old(startTime).None? && !IsBlank(text))
      ensures loopStarted ==> startTime == Some(now) && running
      ensures !loopStarted ==> startTime == old(startTime) && running == old(running)
      ensures store.rows == old(store.rows)
      ensures Advances(old(Phase()), Phase())
    {
      loopStarted := false;
      if startTime.None? && !IsBlank(text) {
        loopStarted := StartTimer(now, text);
      }
      tags := Classify(reference, text);
    }

    /**
     * calculate_results: does nothing unless running; otherwise stops the
     * trial and saves its one record. A second call is a no-op.
     */
    method Finish(now: real, typed: string) returns (record: Option<ScoreRecord>)
      requires Valid()
      modifies this, store
      ensures Valid() && !running && startTime == old(startTime)
      ensures old(running) ==>
                && record == Some(TrialRecord(reference, typed, ElapsedAt(startTime, now)))
                && store.rows == Insert(old(store.rows), record.value)
      ensures !old(running) ==> record == None && store.rows == old(store.rows)
      ensures Advances(old(Phase()), Phase())
    {
      if !running {
        return None;
      }
      running := false;
      var elapsed := ElapsedAt(startTime, now);
      var accuracy := Accuracy(typed, reference);
      var wpm := Wpm(typed, elapsed);
      SaveScore(elapsed, wpm, accuracy);
      record := Some(ScoreRecord(elapsed, wpm, accuracy));
    }

    /** save_score: the score file becomes the top five of its rows plus the record. */
    method SaveScore(time: real, wpm: real, accuracy: real)
      modifies store
      ensures store.rows == Insert(old(store.rows), ScoreRecord(time, wpm, accuracy))
    {
      store.rows := Insert(store.rows, ScoreRecord(time, wpm, accuracy));
    }
  }

  /**
   * A countdown trial left alone: one keystroke starts it, a tick at 60
   * seconds finishes it with exactly one saved record, and pressing
   * Return afterwards saves nothing more.
   */
  method CountdownScenario() {
    var store := new ScoreFile([]);
    var trial := new Trial(Countdown, "cat", store);
    var none := trial.Finish(5.0, "");
    assert none == None && store.rows == [];
    var tags, started := trial.KeyRelease("c", 100.0);
    assert started && trial.Phase() == Running;
    var again := trial.Tick(130.0, "ca");
    assert again && trial.running;
    again := trial.Tick(160.0, "cap");
    assert !again && trial.Phase() == Finished;
    assert |store.rows| == 1;
    var second := trial.Finish(161.0, "cap");
    assert second == None && |store.rows| == 1;
    tags, started := trial.KeyRelease("cap!", 170.0);
    assert !started && trial.Phase() == Finished;
  }
}
