/**
 * The per-character colouring that TypingFrame.check_typing applies to the
 * reference passage after every key release: each reference character is
 * tagged correct, wrong or left untagged (not typed yet).
 */
module Highlight {
  import opened Metrics

  datatype Tag = Correct | Wrong | Untyped

  /** `tags` tags every reference character as check_typing does. */
  predicate IsClassification(reference: string, typed: string, tags: seq<Tag>) {
    && |tags| == |reference|
    && forall i :: 0 <= i < |tags| ==>
         && (tags[i] == Correct <==> i < |typed| && typed[i] == reference[i])
         && (tags[i] == Wrong <==> i < |typed| && typed[i] != reference[i])
         && (tags[i] == Untyped <==> i >= |typed|)
  }

  function CountCorrect(tags: seq<Tag>): (n: nat)
    ensures n <= |tags|
  {
    if tags == [] then 0 else (if tags[0] == Correct then 1 else 0) + CountCorrect(tags[1..])
  }

  /**
   * The number of characters shown as correct is the correct-character
   * count that the trial result is computed from.
   */
  lemma {:induction false} CorrectTagsAreCorrectCount(reference: string, typed: string, tags: seq<Tag>)
    requires IsClassification(reference, typed, tags)
    ensures CountCorrect(tags) == CorrectCount(typed, reference)
  {
    if reference != [] {
      var rest := if typed == [] then [] else typed[1..];
      assert IsClassification(reference[1..], rest, tags[1..]) by {
        forall i | 0 <= i < |tags| - 1
          ensures && (tags[1..][i] == Correct <==> i < |rest| && rest[i] == reference[1..][i])
                  && (tags[1..][i] == Wrong <==> i < |rest| && rest[i] != reference[1..][i])
                  && (tags[1..][i] == Untyped <==> i >= |rest|)
        {
          assert tags[1..][i] == tags[i + 1];
        }
      }
      CorrectTagsAreCorrectCount(reference[1..], rest, tags[1..]);
      if typed == [] {
        assert tags[0] == Untyped;
        NothingTypedNothingCorrect(reference[1..], tags[1..]);
      }
    }
  }

  lemma {:induction false} NothingTypedNothingCorrect(reference: string, tags: seq<Tag>)
    requires IsClassification(reference, [], tags)
    ensures CountCorrect(tags) == 0
  {
    if tags != [] {
      assert IsClassification(reference[1..], [], tags[1..]) by {
        forall i | 0 <= i < |tags| - 1 ensures tags[1..][i] == Untyped {
          assert tags[1..][i] == tags[i + 1];
        }
      }
      NothingTypedNothingCorrect(reference[1..], tags[1..]);
    }
  }

  /**
   * The loop over `enumerate(self.text_to_type)` in check_typing: one tag per
   * reference character; typed characters past the reference are not shown.
   */
  method Classify(reference: string, typed: string) returns (tags: seq<Tag>)
    ensures IsClassification(reference, typed, tags)
    ensures CountCorrect(tags) == CorrectCount(typed, reference)
  {
    tags := [];
    for i := 0 to |reference|
      invariant |tags| == i
      invariant forall k :: 0 <= k < i ==>
                  && (tags[k] == Correct <==> k < |typed| && typed[k] == reference[k])
                  && (tags[k] == Wrong <==> k < |typed| && typed[k] != reference[k])
                  && (tags[k] == Untyped <==> k >= |typed|)
    {
      var tag;
      if i < |typed| {
        tag := if typed[i] == reference[i] then Correct else Wrong;
      } else {
        tag := Untyped;
      }
      tags := tags + [tag];
    }
    CorrectTagsAreCorrectCount(reference, typed, tags);
  }
}
