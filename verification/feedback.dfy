/** `store_feedback`: a case-insensitive keyword classifier turns feedback text into a reward
    in {-1, 0, 1}, and the feedback row is appended to an append-only store. */
module Feedback {
  import opened Wrappers
  import opened Text

  /** Positive words are tested first, so they win over negative ones. */
  const PositiveWords: seq<string> := ["good", "helpful"]
  const NegativeWords: seq<string> := ["bad", "incorrect"]

  /** Some keyword of `words` occurs as a substring of `text`. */
  ghost predicate MentionsAny(text: string, words: seq<string>) {
    exists i :: 0 <= i < |words| && Occurs(words[i], text)
  }

  lemma MentionsPair(text: string, a: string, b: string)
    ensures MentionsAny(text, [a, b]) <==> Occurs(a, text) || Occurs(b, text)
  {
    var words := [a, b];
    assert words[0] == a && words[1] == b;
  }

  /** The reward derived from feedback text. */
  function Reward(feedback: string): (r: int)
    ensures r == 1 || r == 0 || r == -1
    ensures r == 1 <==> MentionsAny(Lower(feedback), PositiveWords)
    ensures r == -1 <==> !MentionsAny(Lower(feedback), PositiveWords) && MentionsAny(Lower(feedback), NegativeWords)
    ensures r == 0 <==> !MentionsAny(Lower(feedback), PositiveWords) && !MentionsAny(Lower(feedback), NegativeWords)
  {
    var text := Lower(feedback);
    StrInIffOccurs("good", text);
    StrInIffOccurs("helpful", text);
    StrInIffOccurs("bad", text);
    StrInIffOccurs("incorrect", text);
    MentionsPair(text, "good", "helpful");
    MentionsPair(text, "bad", "incorrect");
    if StrIn("good", text) || StrIn("helpful", text) then 1
    else if StrIn("bad", text) || StrIn("incorrect", text) then -1
    else 0
  }

  /** Matching is case-insensitive: the reward of a text is the reward of its lower-case form. */
  lemma RewardIgnoresCase(feedback: string)
    ensures Reward(feedback) == Reward(Lower(feedback))
  {
    LowerIdempotent(feedback);
  }

  /** Texts that lower-case alike get the same reward ("HELPFUL" and "helpful", say). */
  lemma RewardDependsOnlyOnLowercase(a: string, b: string)
    requires Lower(a) == Lower(b)
    ensures Reward(a) == Reward(b)
  {
  }

  lemma {:induction false} OccursIn(word: string, text: string, i: nat)
    requires i + |word| <= |text| && text[i..i + |word|] == word
    ensures Occurs(word, text)
  {
    assert OccursAt(word, text, i);
  }

  /** Positive precedence: mixed feedback such as "Good but incorrect" earns the reward 1. */
  lemma MixedFeedbackIsPositive()
    ensures Reward("Good but incorrect") == 1
  {
    var text := Lower("Good but incorrect");
    assert text[0..4] == "good";
    OccursIn("good", text, 0);
    MentionsPair(text, "good", "helpful");
  }

  lemma UpperCaseKeywordIsPositive()
    ensures Reward("HELPFUL") == 1
  {
    var text := Lower("HELPFUL");
    assert text[0..7] == "helpful";
    OccursIn("helpful", text, 0);
    MentionsPair(text, "good", "helpful");
  }

  lemma AbsentFirstLetter(word: string, text: string)
    requires |word| > 0 && word[0] !in text
    ensures !Occurs(word, text)
  {
  }

  /** A negative keyword with no positive one earns -1. */
  lemma NegativeFeedbackExample()
    ensures Reward("bad response") == -1
  {
    var text := "bad response";
    LowerKeepsLowercase(text);
    AbsentFirstLetter("good", text);
    AbsentFirstLetter("helpful", text);
    OccursIn("bad", text, 0);
    MentionsPair(text, "good", "helpful");
    MentionsPair(text, "bad", "incorrect");
  }

  /** One row of the feedback store; `day` is the store's clock (`NOW()`) in whole days. */
  datatype FeedbackRow = FeedbackRow(
    userId: string, userInput: string, response: string,
    feedback: string, reward: int, day: int)

  datatype StoreError = StoreError

  /** Appending to the store; `storeUp` says whether the store accepts the write. */
  function StoreFeedback(log: seq<FeedbackRow>, userId: string, userInput: string,
                         response: string, feedback: string, day: int, storeUp: bool)
    : (r: Result<seq<FeedbackRow>, StoreError>)
    ensures r.Success? <==> storeUp
    ensures r.Success? ==> |r.value| == |log| + 1 && r.value[..|log|] == log
    ensures r.Success? ==> var row := r.value[|log|];
      row.userId == userId && row.userInput == userInput && row.response == response
      && row.feedback == feedback && row.reward == Reward(feedback) && row.day == day
  {
    if storeUp then Success(log + [FeedbackRow(userId, userInput, response, feedback, Reward(feedback), day)])
    else Failure(StoreError)
  }
}
