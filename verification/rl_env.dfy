/** `ChatbotEnv`: an episodic environment that walks an index over the training features.
    The observation is the feature at the index (0 when there is none), the two actions are
    0 (negative response) and 1 (positive response), and each step pays +1 for action 1 and
    -1 for anything else, independently of the stored feedback rewards. */
module RlEnv {

  /** The observation reported when there is no feature to show. */
  const Sentinel: int := 0

  /** `training_data` and `current_index`. */
  datatype Env = Env(data: seq<int>, index: nat)

  /** `(next_state, reward, done, info)` of one step, together with the environment after it. */
  datatype Transition = Transition(next: Env, state: int, reward: int, done: bool)

  /** `ChatbotEnv.__init__`: the given features, at index 0. A fresh environment already
      sits where `reset` would put it. */
  function NewEnv(data: seq<int>): (e: Env)
    ensures e.data == data && e.index == 0
    ensures Reset(e).0 == e
  {
    Env(data, 0)
  }

  /** `reset`: back to index 0; the first feature, or the sentinel when reading it raises
      (empty data). */
  function Reset(e: Env): (r: (Env, int))
    ensures r.0.data == e.data && r.0.index == 0
    ensures |e.data| > 0 ==> r.1 == e.data[0]
    ensures |e.data| == 0 ==> r.1 == Sentinel
  {
    var e' := e.(index := 0);
    if |e.data| > 0 then (e', e.data[0]) else (e', Sentinel)
  }

  /** `step`: the index always advances by one; the episode is done once it reaches the end
      of the data. The step's exception handler is unreachable: the index is never negative
      and the data is only read below its length. */
  function Step(e: Env, action: int): (t: Transition)
    ensures t.reward == 1 <==> action == 1
    ensures t.reward == -1 <==> action != 1
    ensures t.next.data == e.data && t.next.index == e.index + 1
    ensures t.done <==> t.next.index >= |e.data|
    ensures t.done ==> t.state == Sentinel
    ensures !t.done ==> t.state == e.data[t.next.index]
  {
    var reward := if action == 1 then 1 else -1;
    var index := e.index + 1;
    var done := index >= |e.data|;
    var state := if done then Sentinel else e.data[index];
    Transition(e.(index := index), state, reward, done)
  }

  /** The transitions produced by stepping with `actions` in turn. */
  function Rollout(e: Env, actions: seq<int>): (ts: seq<Transition>)
    ensures |ts| == |actions|
    decreases |actions|
  {
    if |actions| == 0 then []
    else
      var t := Step(e, actions[0]);
      [t] + Rollout(t.next, actions[1..])
  }

  lemma {:induction false} RolloutIndex(e: Env, actions: seq<int>)
    ensures forall k :: 0 <= k < |actions| ==>
      Rollout(e, actions)[k].next == Env(e.data, e.index + k + 1)
    decreases |actions|
  {
    if |actions| > 0 {
      var t := Step(e, actions[0]);
      RolloutIndex(t.next, actions[1..]);
    }
  }

  /** Episode length: after `reset`, the k-th step (counting from 1) is done exactly when
      k >= |data|, whatever the actions. So non-empty data ends after exactly |data| steps and
      empty data ends on the first step. */
  lemma {:induction false} EpisodeLength(e: Env, actions: seq<int>)
    ensures forall k :: 0 <= k < |actions| ==>
      (Rollout(Reset(e).0, actions)[k].done <==> k + 1 >= |e.data|)
    ensures forall k :: 0 <= k < |actions| && k + 1 < |e.data| ==>
      Rollout(Reset(e).0, actions)[k].state == e.data[k + 1]
  {
    var start := Reset(e).0;
    RolloutIndex(start, actions);
    forall k | 0 <= k < |actions|
      ensures Rollout(start, actions)[k].done <==> k + 1 >= |e.data|
      ensures k + 1 < |e.data| ==> Rollout(start, actions)[k].state == e.data[k + 1]
    {
      RolloutStep(start, actions, k);
    }
  }

  /** The k-th transition of a rollout is a step from the environment before it. */
  lemma {:induction false} RolloutStep(e: Env, actions: seq<int>, k: nat)
    requires k < |actions|
    ensures Rollout(e, actions)[k] == Step(Env(e.data, e.index + k), actions[k])
    decreases |actions|
  {
    RolloutIndex(e, actions);
    var t := Step(e, actions[0]);
    if k > 0 {
      RolloutStep(t.next, actions[1..], k - 1);
    }
  }

  /** Drives one episode from `reset` until `done`, choosing actions with `policy`. It
      returns the observations the policy was shown, in order, and the number of steps. The
      observations replay the data in its order; empty data shows the sentinel once. */
  method Episode(data: seq<int>, policy: int -> int) returns (shown: seq<int>, steps: nat)
    ensures steps == if |data| == 0 then 1 else |data|
    ensures |data| > 0 ==> shown == data
    ensures |data| == 0 ==> shown == [Sentinel]
  {
    var r := Reset(NewEnv(data));
    var env, obs := r.0, r.1;
    shown := [obs];
    steps := 0;
    var done := false;
    while !done
      invariant env.data == data && env.index == steps
      invariant done <==> (steps >= 1 && steps >= |data|)
      invariant !done ==> |shown| == steps + 1
      invariant done ==> |shown| == steps
      invariant !done ==> obs == (if |data| == 0 then Sentinel else data[steps])
      invariant |data| > 0 && !done ==> shown == data[..steps + 1]
      invariant |data| > 0 && done ==> shown == data
      invariant |data| == 0 ==> shown == [Sentinel]
      decreases (if |data| == 0 then 1 else |data|) - steps
    {
      var t := Step(env, policy(obs));
      env, obs, done := t.next, t.state, t.done;
      steps := steps + 1;
      if !done {
        shown := shown + [obs];
      }
    }
  }
}
