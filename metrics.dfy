/**
 * The result arithmetic of a typing trial (TypingFrame.calculate_results):
 * correct characters, accuracy in percent and words per minute, computed
 * exactly over `real` instead of floating point.
 */
module Metrics {

  /** Characters per word in the WPM formula. */
  const CharsPerWord: real := 5.0

  /**
   * `sum(1 for a, b in zip(typed, reference) if a == b)`: positions, up to the
   * shorter of the two strings, where the typed character equals the reference.
   */
  function CorrectCount(typed: string, reference: string): (n: nat)
    ensures n <= |typed| && n <= |reference|
  {
    if typed == [] || reference == [] then 0
    else (if typed[0] == reference[0] then 1 else 0) + CorrectCount(typed[1..], reference[1..])
  }

  /** Accuracy in percent; 0 for an empty reference (the `if self.text_to_type` guard). */
  function Accuracy(typed: string, reference: string): (a: real)
    ensures 0.0 <= a <= 100.0
    ensures |reference| == 0 ==> a == 0.0
    ensures |reference| > 0 ==> a * (|reference| as real) == 100.0 * (CorrectCount(typed, reference) as real)
  {
    if |reference| > 0 then
      var c := CorrectCount(typed, reference) as real;
      var n := |reference| as real;
      assert c / n <= 1.0 by {
        assert (c / n) * n == c;
      }
      (c / n) * 100.0
    else 0.0
  }

  /** Elapsed minutes, floored at one minute when no positive time has passed. */
  function Minutes(elapsed: real): (m: real)
    ensures m > 0.0
    ensures elapsed > 0.0 ==> m * 60.0 == elapsed
    ensures elapsed <= 0.0 ==> m == 1.0
  {
    if elapsed > 0.0 then elapsed / 60.0 else 1.0
  }

  /** Words per minute: `(len(typed) / 5) / minutes`, never a division by zero. */
  function Wpm(typed: string, elapsed: real): (w: real)
    ensures w >= 0.0
    ensures w * Minutes(elapsed) * CharsPerWord == |typed| as real
  {
    (|typed| as real / CharsPerWord) / Minutes(elapsed)
  }

  /** Characters typed past the end of the reference never change the count. */
  lemma {:induction false} CorrectCountIgnoresOverflow(typed: string, reference: string)
    requires |typed| >= |reference|
    ensures CorrectCount(typed, reference) == CorrectCount(typed[..|reference|], reference)
  {
    if reference != [] {
      assert typed[..|reference|][1..] == typed[1..][..|reference| - 1];
      CorrectCountIgnoresOverflow(typed[1..], reference[1..]);
    }
  }

  /** Every compared position matches exactly when the shorter string is a prefix of the other. */
  lemma {:induction false} CorrectCountAllMatch(typed: string, reference: string)
    ensures var m := if |typed| < |reference| then |typed| else |reference|;
            CorrectCount(typed, reference) == m <==> typed[..m] == reference[..m]
  {
    if typed != [] && reference != [] {
      CorrectCountAllMatch(typed[1..], reference[1..]);
      var m := if |typed| < |reference| then |typed| else |reference|;
      assert typed[..m] == [typed[0]] + typed[1..][..m - 1];
      assert reference[..m] == [reference[0]] + reference[1..][..m - 1];
      if typed[..m] == reference[..m] {
        assert typed[0] == typed[..m][0];
      }
    }
  }

  /** Accuracy is 100% exactly when the reference was typed in full and without error. */
  lemma PerfectAccuracy(typed: string, reference: string)
    ensures Accuracy(typed, reference) == 100.0
            <==> |reference| > 0 && |typed| >= |reference| && typed[..|reference|] == reference
  {
    CorrectCountAllMatch(typed, reference);
    if |reference| > 0 {
      var a := Accuracy(typed, reference);
      var c := CorrectCount(typed, reference);
      assert a == 100.0 <==> c == |reference|;
      if |typed| < |reference| {
        assert c < |reference|;
      }
    }
  }

  /** With the elapsed time fixed, typing more characters never lowers the WPM. */
  lemma WpmMonotoneInLength(shorter: string, longer: string, elapsed: real)
    requires |shorter| <= |longer|
    ensures Wpm(shorter, elapsed) <= Wpm(longer, elapsed)
  {
    var m := Minutes(elapsed);
    assert Wpm(shorter, elapsed) == (|shorter| as real / CharsPerWord) / m;
    assert Wpm(longer, elapsed) == (|longer| as real / CharsPerWord) / m;
    assert (|shorter| as real / CharsPerWord) <= (|longer| as real / CharsPerWord);
  }

  /** With the text fixed, taking longer (a positive time) never raises the WPM. */
  lemma WpmAntitoneInTime(typed: string, sooner: real, later: real)
    requires 0.0 < sooner <= later
    ensures Wpm(typed, later) <= Wpm(typed, sooner)
  {
    var words := |typed| as real / CharsPerWord;
    var ms, ml := Minutes(sooner), Minutes(later);
    assert ms <= ml;
    assert words / ml <= words / ms by {
      assert (words / ml) * ml == words;
      assert (words / ms) * ms == words;
      assert (words / ml) * ms <= (words / ml) * ml;
    }
  }

  /** At or before the start instant, WPM is the word count itself (the one-minute floor). */
  lemma WpmWithoutElapsedTime(typed: string, elapsed: real)
    requires elapsed <= 0.0
    ensures Wpm(typed, elapsed) == |typed| as real / CharsPerWord
  {
  }

  /** Worked examples: a flawless "abc" with no elapsed time, and "cap" against "cat" in 30 seconds. */
  lemma WorkedExamples()
    ensures Accuracy("abc", "abc") == 100.0 && Wpm("abc", 0.0) == 0.6
    ensures Accuracy("cap", "cat") == 200.0 / 3.0 && Wpm("cap", 30.0) == 1.2
  {
    assert CorrectCount("abc", "abc") == 3 by {
      assert "abc"[1..] == "bc" && "bc"[1..] == "c" && "c"[1..] == "";
    }
    assert CorrectCount("cap", "cat") == 2 by {
      assert "cap"[1..] == "ap" && "ap"[1..] == "p" && "p"[1..] == "";
      assert "cat"[1..] == "at" && "at"[1..] == "t" && "t"[1..] == "";
    }
  }
}
