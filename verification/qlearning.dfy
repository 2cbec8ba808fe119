/**
  Tabular Q-learning on the puzzle environment: the greedy target policy,
  the one-step update of the action-value table and the episode loop that
  records each episode's return.

  The exploratory choices are supplied as a sequence of action indices
  instead of being drawn at random, and values are real numbers.
 */
module QLearning {
  import opened Environment
  import opened Canon
  import opened Solution

  datatype Option<T> = None | Some(value: T)

  /** The action-value table: keyed by canonical state and action index. */
  type QTable = map<(Key, int), real>

  /** The stored value of `a` in state `k`, or 0 for a pair never updated. */
  function Value(q: QTable, k: Key, a: int): (v: real)
    ensures (k, a) in q ==> v == q[(k, a)]
    ensures (k, a) !in q ==> v == 0.0
  {
    if (k, a) in q then q[(k, a)] else 0.0
  }

  /**
    The value of an optional action; an absent action has no entry, since
    the table only ever stores pairs with an action index.
   */
  function OptionValue(q: QTable, k: Key, a: Option<int>): real
  {
    match a
    case None => 0.0
    case Some(b) => Value(q, k, b)
  }

  /**
    The greedy choice among actions 0 .. n-1, scanning upwards and
    replacing the best so far only on a strictly greater value, so that
    ties go to the lowest index.
   */
  function BestAmong(q: QTable, k: Key, n: int): (a: int)
    requires 1 <= n
    ensures 0 <= a < n
    ensures forall b :: 0 <= b < n ==> Value(q, k, b) <= Value(q, k, a)
    ensures forall b :: 0 <= b < a ==> Value(q, k, b) < Value(q, k, a)
    decreases n
  {
    if n == 1 then 0
    else
      var best := BestAmong(q, k, n - 1);
      if Value(q, k, n - 1) > Value(q, k, best) then n - 1 else best
  }

  /** The target policy: the first action of greatest value in state `k`. */
  function TargetPolicy(q: QTable, k: Key): (a: int)
    ensures 0 <= a < NumActions
    ensures forall b :: 0 <= b < NumActions ==> Value(q, k, b) <= Value(q, k, a)
    ensures forall b :: 0 <= b < a ==> Value(q, k, b) < Value(q, k, a)
  {
    var a := BestAmong(q, k, NumActions);
    assert forall b :: 0 <= b < NumActions ==> Value(q, k, b) <= Value(q, k, a);
    a
  }

  /** The greatest action value in state `k`. */
  function MaxValue(q: QTable, k: Key): (v: real)
    ensures forall b :: 0 <= b < NumActions ==> Value(q, k, b) <= v
    ensures exists b :: 0 <= b < NumActions && Value(q, k, b) == v
  {
    Value(q, k, TargetPolicy(q, k))
  }

  /**
    The target policy is the one action that is maximal and beats every
    lower index: any action with both properties is the one it picks.
   */
  lemma TargetPolicyUnique(q: QTable, k: Key, a: int)
    requires 0 <= a < NumActions
    requires forall b :: 0 <= b < NumActions ==> Value(q, k, b) <= Value(q, k, a)
    requires forall b :: 0 <= b < a ==> Value(q, k, b) < Value(q, k, a)
    ensures TargetPolicy(q, k) == a
  {
  }

  /** In a state whose actions all have the same value the policy picks action 0. */
  lemma TargetPolicyOnTies(q: QTable, k: Key)
    requires forall b :: 0 <= b < NumActions ==> Value(q, k, b) == Value(q, k, 0)
    ensures TargetPolicy(q, k) == 0
  {
    TargetPolicyUnique(q, k, 0);
  }

  /** A state never updated picks action 0. */
  lemma UnseenStatePicksFirst(q: QTable, k: Key)
    requires forall b :: (k, b) !in q
    ensures TargetPolicy(q, k) == 0
  {
    TargetPolicyOnTies(q, k);
  }

  /**
    The action whose value bootstraps the update: none once the episode is
    over, and otherwise an action of greatest value in `next`.
   */
  function NextAction(q: QTable, next: Key, done: bool): (a: Option<int>)
    ensures done <==> a.None?
    ensures a.Some? ==> 0 <= a.value < NumActions
    ensures a.Some? ==> forall b :: 0 <= b < NumActions ==> Value(q, next, b) <= Value(q, next, a.value)
  {
    if done then None else Some(TargetPolicy(q, next))
  }

  /** Stores `v` under `key`, leaving every other entry as it was. */
  function Store(q: QTable, key: (Key, int), v: real): (q': QTable)
    ensures q'.Keys == q.Keys + {key}
    ensures q'[key] == v
    ensures forall other :: other in q && other != key ==> q'[other] == q[other]
  {
    q[key := v]
  }

  /** The value a fraction `alpha` of the way from `current` to `target`. */
  function Towards(current: real, target: real, alpha: real): real
  {
    current + alpha * (target - current)
  }

  /** The one-step target: the reward plus the discounted value of what follows. */
  function Target(reward: int, gamma: real, following: real): real
  {
    reward as real + gamma * following
  }

  /**
    One Q-learning update for taking `a` in `k` and landing in `next` with
    `reward`: the entry for `(k, a)` moves a fraction `alpha` of the way
    towards the one-step target, whose following value is the best value
    of `next`, or 0 when the step ended the episode.
   */
  function Update(q: QTable, k: Key, a: int, reward: int, next: Key, done: bool,
                  alpha: real, gamma: real): (q': QTable)
    ensures q'.Keys == q.Keys + {(k, a)}
    ensures forall key :: key in q && key != (k, a) ==> q'[key] == q[key]
    ensures done ==> q'[(k, a)] == Towards(Value(q, k, a), Target(reward, gamma, 0.0), alpha)
    ensures !done ==>
      q'[(k, a)] == Towards(Value(q, k, a), Target(reward, gamma, MaxValue(q, next)), alpha)
  {
    var nextMax := OptionValue(q, next, NextAction(q, next, done));
    Store(q, (k, a), Towards(Value(q, k, a), Target(reward, gamma, nextMax), alpha))
  }

  /** Only the updated pair changes value; every other pair reads as before. */
  lemma UpdateIsLocal(q: QTable, k: Key, a: int, reward: int, next: Key, done: bool,
                      alpha: real, gamma: real, k': Key, b: int)
    requires (k', b) != (k, a)
    ensures Value(Update(q, k, a, reward, next, done, alpha, gamma), k', b) == Value(q, k', b)
  {
  }

  /** A step part of the way from one value to another lands between them. */
  lemma TowardsBetween(current: real, target: real, alpha: real)
    requires 0.0 <= alpha <= 1.0
    ensures current <= target ==> current <= Towards(current, target, alpha) <= target
    ensures target <= current ==> target <= Towards(current, target, alpha) <= current
  {
    if current <= target {
      TowardsUp(current, target, alpha);
    } else {
      TowardsDown(current, target, alpha);
    }
  }

  /** Stepping up towards a higher target neither falls back nor overshoots. */
  lemma TowardsUp(current: real, target: real, alpha: real)
    requires 0.0 <= alpha <= 1.0 && current <= target
    ensures current <= Towards(current, target, alpha) <= target
  {
    var d := target - current;
    ScaleDown(alpha, d);
    assert Towards(current, target, alpha) == current + alpha * d;
  }

  /** Stepping down towards a lower target neither rises nor overshoots. */
  lemma TowardsDown(current: real, target: real, alpha: real)
    requires 0.0 <= alpha <= 1.0 && target <= current
    ensures target <= Towards(current, target, alpha) <= current
  {
    ScaleDown(alpha, current - target);
    assert alpha * (target - current) == -(alpha * (current - target));
  }

  /** A fraction between 0 and 1 of a non-negative amount is at most that amount. */
  lemma ScaleDown(alpha: real, d: real)
    requires 0.0 <= alpha <= 1.0 && 0.0 <= d
    ensures 0.0 <= alpha * d <= d
  {
    assert (1.0 - alpha) * d >= 0.0;
  }

  /**
    With a learning rate between 0 and 1 the updated value lies between the
    value before and the one-step target: an update never overshoots.
   */
  lemma UpdateBetween(q: QTable, k: Key, a: int, reward: int, next: Key, done: bool,
                      alpha: real, gamma: real)
    requires 0.0 <= alpha <= 1.0
    ensures var v := Update(q, k, a, reward, next, done, alpha, gamma)[(k, a)];
      var g := Target(reward, gamma, if done then 0.0 else MaxValue(q, next));
      (Value(q, k, a) <= g ==> Value(q, k, a) <= v <= g) && (g <= Value(q, k, a) ==> g <= v <= Value(q, k, a))
  {
    TowardsBetween(Value(q, k, a), Target(reward, gamma, if done then 0.0 else MaxValue(q, next)), alpha);
  }

  /** The rewards of `t` added up. */
  function Total(t: seq<StepResult>): int
    decreases |t|
  {
    if t == [] then 0 else t[0].reward + Total(t[1..])
  }

  /** Adding up rewards distributes over joining step sequences. */
  lemma {:induction false} TotalAppend(a: seq<StepResult>, b: seq<StepResult>)
    ensures Total(a + b) == Total(a) + Total(b)
    decreases |a|
  {
    if a == [] {
      assert a + b == b;
    } else {
      assert (a + b)[0] == a[0] && (a + b)[1..] == a[1..] + b;
      TotalAppend(a[1..], b);
    }
  }

  /**
    How many of the step results `t` an episode uses: up to and including
    the first that reports done, or all of them if none does.
   */
  function StepsTaken(t: seq<StepResult>): (u: nat)
    ensures u <= |t|
    ensures forall j :: 0 <= j < u - 1 ==> !t[j].done
    ensures (1 <= u && t[u - 1].done) || (u == |t| && forall j :: 0 <= j < |t| ==> !t[j].done)
    decreases |t|
  {
    if t == [] then 0
    else if t[0].done then 1
    else
      var u := StepsTaken(t[1..]);
      assert forall j :: 1 <= j < |t| ==> t[j] == t[1..][j - 1];
      1 + u
  }

  /**
    The table after the update of each transition of `t` in turn, starting
    from the state with key `k`: the action `acts[i]` earned `t[i].reward`
    and led to `t[i].next`, whose key is where the next transition starts.
   */
  function Replay(q: QTable, k: Key, acts: seq<int>, t: seq<StepResult>, alpha: real, gamma: real): (r: QTable)
    requires |acts| == |t|
    ensures q.Keys <= r.Keys
    ensures t != [] ==> (k, acts[0]) in r
    decreases |t|
  {
    if t == [] then q
    else
      var k' := StateToKey(t[0].next);
      var q' := Update(q, k, acts[0], t[0].reward, k', t[0].done, alpha, gamma);
      var r := Replay(q', k', acts[1..], t[1..], alpha, gamma);
      r
  }

  /**
    The outcome of one episode: the table, the return, how many of the
    supplied actions it used, and whether it ended on a done step.
   */
  datatype Episode = Episode(q: QTable, ret: int, used: nat, finished: bool)

  /**
    How an episode relates to the step results `t` the environment
    produces for the supplied actions: it stops at the first step that
    reports done, or uses every supplied action if none does, and its
    return adds up the rewards of the steps it used.
   */
  predicate StopsAtFirstDone(t: seq<StepResult>, used: nat, ret: int, finished: bool)
  {
    && used <= |t|
    && ret == Total(t[..used])
    && (forall j :: 0 <= j < used - 1 ==> !t[j].done)
    && (finished ==> 1 <= used && t[used - 1].done)
    && (!finished ==> used == |t| && NeverDone(t))
  }

  /** No step of `t` ends the episode. */
  predicate NeverDone(t: seq<StepResult>)
  {
    forall j :: 0 <= j < |t| ==> !t[j].done
  }

  /** What an episode amounts to, leaving the table aside. */
  datatype Summary = Summary(used: nat, ret: int, finished: bool)

  /** The summary of the episode the step results `t` give. */
  function Summarize(t: seq<StepResult>): (s: Summary)
    ensures StopsAtFirstDone(t, s.used, s.ret, s.finished)
  {
    var u := StepsTaken(t);
    Summary(u, Total(t[..u]), 1 <= u && t[u - 1].done)
  }

  /** Stopping at the first done step pins the episode down: only one summary fits. */
  lemma SummaryUnique(t: seq<StepResult>, used: nat, ret: int, finished: bool)
    requires StopsAtFirstDone(t, used, ret, finished)
    ensures Summarize(t) == Summary(used, ret, finished)
  {
  }

  /**
    The inner loop of training, fed with the actions `acts` and the step
    results `t` the environment gives for them: from the state with key
    `k`, update the table for each transition in turn, adding each reward
    to the return, and stop after the first step that reports done.
   */
  function Learn(q: QTable, k: Key, acts: seq<int>, t: seq<StepResult>, alpha: real, gamma: real): (r: Episode)
    requires |acts| == |t|
    ensures q.Keys <= r.q.Keys
    ensures t != [] ==> (k, acts[0]) in r.q
    ensures StopsAtFirstDone(t, r.used, r.ret, r.finished)
  {
    var s := Summarize(t);
    Episode(Replay(q, k, acts[..s.used], t[..s.used], alpha, gamma), s.ret, s.used, s.finished)
  }

  /**
    The return of an episode on honestly rewarded steps: 100 exactly when
    its last step lands on the goal, and 0 otherwise.
   */
  lemma EpisodeReturn(t: seq<StepResult>, r: Episode)
    requires RewardsAsPromised(t) && StopsAtFirstDone(t, r.used, r.ret, r.finished)
    ensures r.ret == 0 || r.ret == 100
    ensures r.ret == 100 <==> r.finished && IsWin(t[r.used - 1].next)
  {
    if r.finished {
      var u := r.used;
      assert t[..u] == t[..u - 1] + [t[u - 1]];
      TotalAppend(t[..u - 1], [t[u - 1]]);
      assert Total([t[u - 1]]) == t[u - 1].reward by {
        assert [t[u - 1]][1..] == [];
      }
      NoRewardBeforeDone(t[..u - 1]);
    } else {
      assert t[..r.used] == t;
      NoRewardBeforeDone(t);
    }
  }

  /** Steps none of which is done, and which earn only on done steps, earn nothing. */
  lemma {:induction false} NoRewardBeforeDone(t: seq<StepResult>)
    requires forall j :: 0 <= j < |t| ==> !t[j].done && t[j].reward == 0
    ensures Total(t) == 0
    decreases |t|
  {
    if t != [] {
      assert forall j :: 0 <= j < |t| - 1 ==> t[1..][j] == t[j + 1];
      NoRewardBeforeDone(t[1..]);
    }
  }

  /**
    An episode that follows the winning plan from the start uses every one
    of its actions, ends on the last, and returns 100, whatever the table
    held before.
   */
  lemma PlanEpisodeWins(q: QTable, e: Env, alpha: real, gamma: real)
    requires e.state == Start
    ensures InRange(Plan)
    ensures var r := Learn(q, StateToKey(e.state), Plan, Trace(e, Plan), alpha, gamma);
      r.used == |Plan| && r.finished && r.ret == 100
  {
    PlanSolvesPuzzle(e);
    var t := Trace(e, Plan);
    var r := Learn(q, StateToKey(e.state), Plan, t, alpha, gamma);
    TraceRewards(e, Plan);
    EpisodeReturn(t, r);
  }

  /** The step results environment `e` gives for the supplied actions from `pos` on. */
  function StepsFrom(e: Env, choices: seq<int>, pos: nat): (t: seq<StepResult>)
    requires InRange(choices) && pos <= |choices|
    ensures |t| == |choices| - pos
  {
    var acts := choices[pos..];
    assert InRange(acts);
    Trace(e, acts)
  }

  /**
    One episode from environment `e`: the environment answers the
    supplied actions from position `pos` on, and the learner consumes its
    answers starting from the key of `e`'s state, up to the first answer
    that reports done.
   */
  method RunEpisode(q: QTable, e: Env, choices: seq<int>, pos: nat, alpha: real, gamma: real)
    returns (r: Episode)
    requires InRange(choices) && pos <= |choices|
    ensures q.Keys <= r.q.Keys
    ensures StopsAtFirstDone(StepsFrom(e, choices, pos), r.used, r.ret, r.finished)
    ensures pos + r.used <= |choices|
    ensures r.ret == 0 || r.ret == 100
    ensures r.ret == 100 <==> r.finished && IsWin(StepsFrom(e, choices, pos)[r.used - 1].next)
    ensures pos < |choices| ==> (StateToKey(e.state), choices[pos]) in r.q
  {
    var acts := choices[pos..];
    assert InRange(acts);
    var t := StepsFrom(e, choices, pos);
    TraceRewards(e, acts);
    r := Learn(q, StateToKey(e.state), acts, t, alpha, gamma);
    EpisodeReturn(t, r);
  }

  /**
    An episode recorded by training: started from environment `e` at
    position `from` of the supplied actions, it stopped on a done step just
    before position `to`, and `ret` adds up its rewards.
   */
  predicate Recorded(e: Env, choices: seq<int>, from: int, to: int, ret: int)
    requires InRange(choices)
  {
    0 <= from < to <= |choices| && Summarize(StepsFrom(e, choices, from)) == Summary(to - from, ret, true)
  }

  /** A finished episode from `e` at `from` that used `used` actions is one training records. */
  lemma RecordedEpisode(e: Env, choices: seq<int>, from: nat, used: nat, ret: int)
    requires InRange(choices) && from + used <= |choices|
    requires StopsAtFirstDone(StepsFrom(e, choices, from), used, ret, true)
    ensures Recorded(e, choices, from, from + used, ret)
  {
    SummaryUnique(StepsFrom(e, choices, from), used, ret, true);
  }

  /**
    The log of training so far, each episode starting from environment
    `e`: episode `i` ran from position `starts[i]` to `starts[i + 1]` of the
    supplied actions and returned `rets[i]`, and the first episode started
    at the beginning.
   */
  predicate Log(e: Env, choices: seq<int>, starts: seq<int>, rets: seq<int>)
    requires InRange(choices)
    decreases |rets|
  {
    if rets == [] then starts == [0]
    else
      var n := |rets|;
      && |starts| == n + 1
      && Log(e, choices, starts[..n], rets[..n - 1])
      && Recorded(e, choices, starts[n - 1], starts[n], rets[n - 1])
  }

  /** The log has one more start than returns, and the first episode starts at the beginning. */
  lemma {:induction false} LogStartsAtZero(e: Env, choices: seq<int>, starts: seq<int>, rets: seq<int>)
    requires InRange(choices) && Log(e, choices, starts, rets)
    ensures |starts| == |rets| + 1 && starts[0] == 0
    decreases |rets|
  {
    if rets != [] {
      var n := |rets|;
      LogStartsAtZero(e, choices, starts[..n], rets[..n - 1]);
      assert starts[..n][0] == starts[0];
    }
  }

  /**
    The starts of a log climb strictly within the supply: every recorded
    episode uses at least one action, and the next starts where it stopped.
   */
  lemma LogBounds(e: Env, choices: seq<int>, starts: seq<int>, rets: seq<int>)
    requires InRange(choices) && Log(e, choices, starts, rets)
    ensures |starts| == |rets| + 1 && starts[0] == 0
    ensures forall i {:trigger starts[i]} :: 0 <= i < |rets| ==> 0 <= starts[i] < starts[i + 1] <= |choices|
  {
    LogStartsAtZero(e, choices, starts, rets);
    forall i {:trigger starts[i]} | 0 <= i < |rets|
      ensures 0 <= starts[i] < starts[i + 1] <= |choices|
    {
      LogRecords(e, choices, starts, rets, i);
    }
  }

  /** Episode `i` of a log is one that training records. */
  lemma {:induction false} LogRecords(e: Env, choices: seq<int>, starts: seq<int>, rets: seq<int>, i: nat)
    requires InRange(choices) && Log(e, choices, starts, rets) && i < |rets|
    ensures |starts| == |rets| + 1
    ensures Recorded(e, choices, starts[i], starts[i + 1], rets[i])
    decreases |rets|
  {
    var n := |rets|;
    if i < n - 1 {
      LogRecords(e, choices, starts[..n], rets[..n - 1], i);
      assert starts[..n][i] == starts[i] && starts[..n][i + 1] == starts[i + 1] && rets[..n - 1][i] == rets[i];
    }
  }

  /** Recording one more finished episode, which starts where the log ends, extends the log. */
  lemma LogExtend(e: Env, choices: seq<int>, starts: seq<int>, rets: seq<int>, to: nat, ret: int)
    requires InRange(choices) && Log(e, choices, starts, rets)
    requires |starts| == |rets| + 1 && Recorded(e, choices, starts[|rets|], to, ret)
    ensures Log(e, choices, starts + [to], rets + [ret])
  {
    var starts', rets' := starts + [to], rets + [ret];
    assert starts'[..|rets'|] == starts && rets'[..|rets'| - 1] == rets;
  }

  /** Every return a log records is 0 or 100. */
  lemma LogReturns(e: Env, choices: seq<int>, starts: seq<int>, rets: seq<int>)
    requires InRange(choices) && Log(e, choices, starts, rets)
    ensures forall i :: 0 <= i < |rets| ==> rets[i] == 0 || rets[i] == 100
  {
    forall i | 0 <= i < |rets|
      ensures rets[i] == 0 || rets[i] == 100
    {
      LogRecords(e, choices, starts, rets, i);
      var from, to := starts[i], starts[i + 1];
      var acts := choices[from..];
      assert InRange(acts);
      TraceRewards(e, acts);
      EpisodeReturn(StepsFrom(e, choices, from), Episode(map[], rets[i], to - from, true));
    }
  }

  /**
    One round of training: run the next episode from `start`, taking its
    actions from where the log ends. A finished episode is appended to the
    log; otherwise the supply ran out with no done step and the log stays.
   */
  method TrainRound(start: Env, q: QTable, choices: seq<int>, starts: seq<int>, rets: seq<int>, alpha: real, gamma: real)
    returns (q': QTable, starts': seq<int>, rets': seq<int>, finished: bool)
    requires InRange(choices) && Log(start, choices, starts, rets)
    requires |starts| == |rets| + 1 && 0 <= starts[|rets|] <= |choices|
    ensures q.Keys <= q'.Keys
    ensures Log(start, choices, starts', rets') && |starts'| == |rets'| + 1 && 0 <= starts'[|rets'|] <= |choices|
    ensures finished ==> |rets'| == |rets| + 1
    ensures !finished ==> starts' == starts && rets' == rets && NeverDone(StepsFrom(start, choices, starts[|rets|]))
    ensures starts[|rets|] < |choices| ==> (StateToKey(start.state), choices[starts[|rets|]]) in q'
  {
    var from := starts[|rets|];
    var ep := RunEpisode(q, start, choices, from, alpha, gamma);
    q', starts', rets', finished := ep.q, starts, rets, ep.finished;
    if finished {
      RecordedEpisode(start, choices, from, ep.used, ep.ret);
      LogExtend(start, choices, starts, rets, from + ep.used, ep.ret);
      starts', rets' := starts + [from + ep.used], rets + [ep.ret];
    }
  }

  /**
    Training: run `episodes` episodes, each from the environment `start`
    with its return starting at 0, each taking its actions from where the
    previous one stopped in `choices`, and record each episode's return.
    Episode `i` starts at position `starts[i]`. Training stops early, with
    fewer returns than episodes, only when the episode under way runs out
    of supplied actions without a done step.
   */
  method TrainFrom(start: Env, q0: QTable, episodes: nat, choices: seq<int>, alpha: real, gamma: real)
    returns (q: QTable, rets: seq<int>, starts: seq<int>, drawn: nat)
    requires InRange(choices)
    ensures |rets| <= episodes
    ensures Log(start, choices, starts, rets) && |starts| == |rets| + 1 && 0 <= starts[|rets|] <= |choices|
    ensures forall i :: 0 <= i < |rets| ==> rets[i] == 0 || rets[i] == 100
    ensures |rets| == episodes ==> drawn == starts[|rets|]
    ensures |rets| < episodes ==> drawn == |choices| && NeverDone(StepsFrom(start, choices, starts[|rets|]))
    ensures q0.Keys <= q.Keys
    ensures 0 < episodes && 0 < |choices| ==> (StateToKey(start.state), choices[0]) in q
  {
    q, rets, starts := q0, [], [0];
    while |rets| < episodes
      invariant |rets| <= episodes
      invariant Log(start, choices, starts, rets) && |starts| == |rets| + 1 && 0 <= starts[|rets|] <= |choices|
      invariant q0.Keys <= q.Keys
      invariant 0 < |rets| ==> 0 < |choices| && (StateToKey(start.state), choices[0]) in q
      decreases episodes - |rets|
    {
      LogStartsAtZero(start, choices, starts, rets);
      var finished;
      q, starts, rets, finished := TrainRound(start, q, choices, starts, rets, alpha, gamma);
      if !finished {
        LogReturns(start, choices, starts, rets);
        drawn := |choices|;
        return;
      }
    }
    LogReturns(start, choices, starts, rets);
    drawn := starts[|rets|];
  }

  /**
    Training as the program runs it: every episode starts from a freshly
    reset environment. One return is recorded per episode, and fewer than
    `episodes` only when the supplied actions run out mid-episode.
   */
  method Train(q0: QTable, episodes: nat, choices: seq<int>, alpha: real, gamma: real)
    returns (q: QTable, rets: seq<int>, starts: seq<int>, drawn: nat)
    requires InRange(choices)
    ensures |rets| <= episodes
    ensures Log(Reset(), choices, starts, rets) && |starts| == |rets| + 1 && 0 <= starts[|rets|] <= |choices|
    ensures forall i :: 0 <= i < |rets| ==> rets[i] == 0 || rets[i] == 100
    ensures |rets| == episodes ==> drawn == starts[|rets|]
    ensures |rets| < episodes ==> drawn == |choices| && NeverDone(StepsFrom(Reset(), choices, starts[|rets|]))
    ensures q0.Keys <= q.Keys
    ensures 0 < episodes && 0 < |choices| ==> (StateToKey(Reset().state), choices[0]) in q
  {
    q, rets, starts, drawn := TrainFrom(Reset(), q0, episodes, choices, alpha, gamma);
  }
}
