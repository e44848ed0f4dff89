/** `ChatbotRLAgent`: loading the training features from the feedback store, the time-decay
    weight of a feedback row, agent construction and the fail-safe best-action query. PPO is
    an oracle: a constructed policy is a function from the observation to a predicted action
    (or to a raised exception). */
module RlAgent {
  import opened Wrappers
  import opened Feedback
  import RlEnv

  /** Feedback loses 5% of its weight per day ... */
  const DecayRate: real := 0.95
  /** ... but never drops below this weight. */
  const MinWeight: real := 0.1
  /** The stand-in training data when there is no feedback to learn from. */
  const EmptyData: seq<int> := [1]

  /** 0.95 raised to a natural power. */
  function Decay(days: nat): (r: real)
    ensures 0.0 < r <= 1.0
  {
    if days == 0 then 1.0 else DecayRate * Decay(days - 1)
  }

  /** `0.95 ** delta_days` for any whole number of days; a timestamp in the future gives a
      negative delta and a factor above 1. */
  function DecayFactor(days: int): (r: real)
    ensures r > 0.0
  {
    if days >= 0 then Decay(days) else 1.0 / Decay(-days)
  }

  lemma DecayFactorStep(days: int)
    ensures DecayFactor(days + 1) == DecayRate * DecayFactor(days)
  {
    if days < 0 {
      var p := Decay(-days - 1);
      assert Decay(-days) == DecayRate * p;
      calc {
        DecayRate * DecayFactor(days);
        DecayRate * (1.0 / (DecayRate * p));
        1.0 / p;
      }
    }
  }

  /** The decay factor never grows as feedback gets older. */
  lemma {:induction false} DecayFactorMonotone(a: int, b: int)
    requires a <= b
    ensures DecayFactor(b) <= DecayFactor(a)
    decreases b - a
  {
    if a < b {
      DecayFactorMonotone(a, b - 1);
      DecayFactorStep(b - 1);
    }
  }

  lemma DecayFactorAboveOneInFuture(days: int)
    requires days < 0
    ensures DecayFactor(days) > 1.0
  {
    var p := Decay(-days);
    assert -days >= 1;
    assert p == DecayRate * Decay(-days - 1);
    assert p <= DecayRate;
  }

  /** Five more days multiply the factor by 0.95^5. */
  lemma DecayFive(days: nat)
    ensures Decay(days + 5) == 0.7737809375 * Decay(days)
  {
    assert Decay(days + 5) == 0.95 * Decay(days + 4);
    assert Decay(days + 4) == 0.95 * Decay(days + 3);
    assert Decay(days + 3) == 0.95 * Decay(days + 2);
    assert Decay(days + 2) == 0.95 * Decay(days + 1);
    assert Decay(days + 1) == 0.95 * Decay(days);
  }

  /** 0.95^10 = 0.5987..., the weight of ten-day-old feedback. */
  lemma DecayTenDays()
    ensures 0.5987 < Decay(10) < 0.5988
  {
    DecayFive(0);
    DecayFive(5);
  }

  /** 0.95^44 is still above the floor and 0.95^45 is below it. */
  lemma DecayCrossesFloor()
    ensures Decay(44) > MinWeight
    ensures Decay(45) < MinWeight
  {
    DecayFive(0);
    DecayFive(5);
    DecayFive(10);
    DecayFive(15);
    DecayFive(20);
    DecayFive(25);
    DecayFive(30);
    DecayFive(35);
    DecayFive(40);
    assert Decay(45) == 0.95 * Decay(44);
  }

  /** The decay factor is below the floor exactly from 45 days on, at most 1 for past
      timestamps and above 1 for future ones. */
  lemma FloorPosition(days: int)
    ensures days >= 45 ==> DecayFactor(days) < MinWeight
    ensures days < 45 ==> DecayFactor(days) > MinWeight
    ensures days >= 0 ==> DecayFactor(days) <= 1.0
    ensures days < 0 ==> DecayFactor(days) > 1.0
  {
    DecayCrossesFloor();
    if days >= 45 {
      DecayFactorMonotone(45, days);
    } else {
      DecayFactorMonotone(days, 44);
    }
    if days < 0 {
      DecayFactorAboveOneInFuture(days);
    }
  }

  /** `calculate_time_weight`: `max(0.95 ** delta_days, 0.1)`, and 0.1 when computing the delta
      raises (`None` here). */
  function TimeWeight(delta: Option<int>): (w: real)
    ensures w >= MinWeight
    ensures w == MinWeight <==> delta.None? || delta.value >= 45
    ensures delta.Some? && delta.value < 45 ==> w == DecayFactor(delta.value)
    ensures delta.Some? && delta.value >= 0 ==> w <= 1.0
    ensures delta.Some? && delta.value < 0 ==> w > 1.0
  {
    match delta
    case None => MinWeight
    case Some(days) =>
      FloorPosition(days);
      var factor := DecayFactor(days);
      if factor > MinWeight then factor else MinWeight
  }

  /** Older feedback never weighs more than newer feedback. */
  lemma TimeWeightMonotone(a: int, b: int)
    requires a <= b
    ensures TimeWeight(Some(b)) <= TimeWeight(Some(a))
  {
    DecayFactorMonotone(a, b);
  }

  /** Ten-day-old feedback weighs 0.95^10 = 0.5987...; hundred-day-old feedback is floored. */
  lemma TimeWeightExamples()
    ensures 0.5987 < TimeWeight(Some(10)) < 0.5988
    ensures TimeWeight(Some(100)) == MinWeight
  {
    DecayTenDays();
  }

  /** A training sample of the reward shaper: the feature of the input, the time weight of the
      row and the reward scaled by that weight. */
  datatype WeightedSample = WeightedSample(feature: int, timeWeight: real, adjustedReward: real)

  /** `embed_text`: the length of the input stands in for an embedding; a value without a
      length (`None`) makes `len` raise, and the handler answers 0. */
  function EmbedText(text: Option<string>): (r: nat)
    ensures text.Some? ==> r == |text.value|
    ensures text.None? ==> r == 0
  {
    match text
    case Some(t) => |t|
    case None => 0
  }

  /** One row of the data frame: the embedded input, the row's time weight for a clock
      reading of `now` days, and the reward scaled by that weight. */
  function Sample(row: FeedbackRow, now: int): (s: WeightedSample)
    ensures s.feature == |row.userInput|
    ensures s.timeWeight == TimeWeight(Some(now - row.day))
    ensures MinWeight <= s.timeWeight
    ensures s.adjustedReward == Scale(row.reward, s.timeWeight)
    ensures row.reward == 0 ==> s.adjustedReward == 0.0
    ensures row.reward > 0 ==> s.adjustedReward > 0.0
    ensures row.reward < 0 ==> s.adjustedReward < 0.0
  {
    var w := TimeWeight(Some(now - row.day));
    ScaledKeepsSign(row.reward, w);
    WeightedSample(EmbedText(Some(row.userInput)), w, Scale(row.reward, w))
  }

  /** `df["reward"] * df["time_weight"]`. */
  function Scale(reward: int, w: real): real {
    reward as real * w
  }

  /** Scaling by a positive weight keeps the sign of the reward. */
  lemma ScaledKeepsSign(reward: int, w: real)
    requires w > 0.0
    ensures reward == 0 ==> Scale(reward, w) == 0.0
    ensures reward > 0 ==> Scale(reward, w) > 0.0
    ensures reward < 0 ==> Scale(reward, w) < 0.0
  {
  }

  /** The data frame built from the fetched rows (`time_weight`, `adjusted_reward` and the
      embedded input) for a clock reading of `now` days. */
  function Shape(rows: seq<FeedbackRow>, now: int): (samples: seq<WeightedSample>)
    ensures |samples| == |rows|
    ensures forall i :: 0 <= i < |rows| ==> samples[i].feature == |rows[i].userInput|
    ensures forall i :: 0 <= i < |rows| ==> MinWeight <= samples[i].timeWeight
    ensures forall i :: 0 <= i < |rows| ==> samples[i].timeWeight == TimeWeight(Some(now - rows[i].day))
    ensures forall i :: 0 <= i < |rows| ==>
      samples[i].adjustedReward == Scale(rows[i].reward, samples[i].timeWeight)
    ensures forall i :: 0 <= i < |rows| && rows[i].reward == 0 ==> samples[i].adjustedReward == 0.0
    ensures forall i :: 0 <= i < |rows| && rows[i].reward > 0 ==> samples[i].adjustedReward > 0.0
    ensures forall i :: 0 <= i < |rows| && rows[i].reward < 0 ==> samples[i].adjustedReward < 0.0
  {
    seq(|rows|, i requires 0 <= i < |rows| => Sample(rows[i], now))
  }

  datatype FetchError = FetchError

  /** `load_training_data`: the features of the fetched rows in row order, or the stand-in
      `[1]` when there are no rows or loading raises. The time weights and adjusted rewards of
      `Shape` are computed by the source but are not part of what it returns. */
  function LoadTrainingData(fetched: Result<seq<FeedbackRow>, FetchError>, now: int): (data: seq<int>)
    ensures |data| >= 1
    ensures fetched.Failure? ==> data == EmptyData
    ensures fetched.Success? && |fetched.value| == 0 ==> data == EmptyData
    ensures fetched.Success? && |fetched.value| > 0 ==>
      |data| == |fetched.value| && forall i :: 0 <= i < |data| ==> data[i] == |fetched.value[i].userInput|
  {
    match fetched
    case Failure(_) => EmptyData
    case Success(rows) =>
      if |rows| == 0 then EmptyData
      else
        var samples := Shape(rows, now);
        seq(|samples|, i requires 0 <= i < |samples| => samples[i].feature)
  }

  /** The loaded data does not depend on rewards, timestamps or the clock: only the inputs. */
  lemma TrainingDataIgnoresRewards(rows1: seq<FeedbackRow>, rows2: seq<FeedbackRow>, now1: int, now2: int)
    requires |rows1| == |rows2|
    requires forall i :: 0 <= i < |rows1| ==> rows1[i].userInput == rows2[i].userInput
    ensures LoadTrainingData(Success(rows1), now1) == LoadTrainingData(Success(rows2), now2)
  {
  }

  /** A policy prediction: an action, or an exception raised by the predictor. */
  datatype Prediction = Predicted(action: int) | PredictRaised

  /** What `get_best_action` is given: something with a length, or something without one
      (`None`, say), for which `len` raises. */
  datatype Observation = Sized(size: nat) | Unsized

  /** The agent after `__init__`: the environment and the PPO policy, each absent when its
      construction raised. */
  datatype Agent = Agent(env: Option<RlEnv.Env>, model: Option<real -> Prediction>)

  /** `__init__`: training data is always loaded (loading cannot raise); `envBuilt` says
      whether wrapping the environment succeeded and `ppo` is the policy PPO constructed, if
      it did. A failure leaves the agent without a model instead of raising. */
  function InitAgent(fetched: Result<seq<FeedbackRow>, FetchError>, now: int,
                     envBuilt: bool, ppo: Option<real -> Prediction>): (a: Agent)
    ensures a.env.Some? <==> envBuilt
    ensures a.env.Some? ==> a.env.value == RlEnv.NewEnv(LoadTrainingData(fetched, now))
    ensures a.model.Some? <==> envBuilt && ppo.Some?
    ensures a.model.Some? ==> a.model == ppo
  {
    if !envBuilt then Agent(None, None)
    else Agent(Some(RlEnv.NewEnv(LoadTrainingData(fetched, now))), ppo)
  }

  /** `get_best_action`: "positive" exactly when a model exists, the observation has a length
      and the model predicts action 1 for that length; every failure falls back to
      "negative". */
  function GetBestAction(a: Agent, obs: Observation): (r: string)
    ensures r == "positive" || r == "negative"
    ensures r == "positive" <==> a.model.Some? && obs.Sized? && a.model.value(obs.size as real) == Predicted(1)
  {
    match (a.model, obs)
    case (None, _) => "negative"
    case (_, Unsized) => "negative"
    case (Some(predict), Sized(n)) =>
      match predict(n as real)
      case PredictRaised => "negative"
      case Predicted(action) => if action == 1 then "positive" else "negative"
  }

  /** An agent whose construction failed answers "negative" to every observation. */
  lemma FailedInitIsConservative(fetched: Result<seq<FeedbackRow>, FetchError>, now: int,
                                 envBuilt: bool, obs: Observation)
    ensures GetBestAction(InitAgent(fetched, now, envBuilt, None), obs) == "negative"
  {
  }
}
