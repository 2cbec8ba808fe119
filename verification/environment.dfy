/**
  The wolf, goat and cabbage river crossing as a deterministic state machine.

  A state places each of four entities on the left bank, in the boat
  ("transport") or on the right bank. Sixteen indexed actions move the
  player's boat, alone or with one piece of cargo, between a bank and the
  transport; an action whose guard fails leaves the state as it was. A state
  is invalid when the goat is left on a bank with the wolf or with the
  cabbage and without the boat, and the episode ends on an invalid state or
  on the goal.
 */
module Environment {

  /** The four movable tokens; `Boat` is the boat together with its rower. */
  datatype Entity = Wolf | Goat | Cabbage | Boat

  /** Anything the boat can carry besides the rower. */
  type Cargo = e: Entity | e != Boat witness Wolf

  /** The three slots of a state, in the order of its components. */
  datatype Location = Left | Transport | Right

  const AllEntities: set<Entity> := {Wolf, Goat, Cabbage, Boat}

  datatype State = State(left: set<Entity>, transport: set<Entity>, right: set<Entity>)
  {
    /** The entities at one location. */
    function At(loc: Location): set<Entity>
    {
      match loc
      case Left => left
      case Transport => transport
      case Right => right
    }

    /** This state with the entities at `loc` replaced by `es`. */
    function Put(loc: Location, es: set<Entity>): State
    {
      match loc
      case Left => this.(left := es)
      case Transport => this.(transport := es)
      case Right => this.(right := es)
    }
  }

  /** The location that is neither `a` nor `b`, for distinct `a` and `b`. */
  function Third(a: Location, b: Location): (c: Location)
    requires a != b
    ensures c != a && c != b
  {
    if a != Left && b != Left then Left
    else if a != Transport && b != Transport then Transport
    else Right
  }

  /** Every entity is at exactly one location. */
  predicate Partition(s: State)
  {
    && s.left + s.transport + s.right == AllEntities
    && s.left !! s.transport
    && s.left !! s.right
    && s.transport !! s.right
  }

  /** The boat holds nothing, or the rower and at most one piece of cargo. */
  predicate Capacity(t: set<Entity>)
  {
    && (t == {} || Boat in t)
    && forall c, d :: c in t && d in t && c != Boat && d != Boat ==> c == d
  }

  /** What holds of every state reachable from the start. */
  predicate Inv(s: State)
  {
    Partition(s) && Capacity(s.transport)
  }

  lemma EveryEntity()
    ensures forall x: Entity :: x in AllEntities
  {
    forall x: Entity
      ensures x in AllEntities
    {
      match x
      case Wolf =>
      case Goat =>
      case Cabbage =>
      case Boat =>
    }
  }

  const Start: State := State(AllEntities, {}, {})
  const Goal: State := State({}, {}, AllEntities)

  /**
    Relocates `what` from one location to another: removal from the source
    first, then addition at the destination. The caller guarantees that
    `what` is at the source.
   */
  function Move(s: State, what: Entity, from: Location, to: Location): (r: State)
    requires what in s.At(from)
    ensures from == to ==> r == s
    ensures from != to ==>
      && r.At(from) == s.At(from) - {what}
      && r.At(to) == s.At(to) + {what}
      && r.At(Third(from, to)) == s.At(Third(from, to))
    ensures Partition(s) && from != to ==> Partition(r)
  {
    var removed := s.Put(from, s.At(from) - {what});
    removed.Put(to, removed.At(to) + {what})
  }

  /** Who crosses: the rower alone, or the rower with one piece of cargo. */
  datatype Mover = Alone | Carrying(cargo: Cargo)

  /** A move of `mover` from one location to another. */
  datatype Action = Action(mover: Mover, from: Location, to: Location)

  const NumActions := 16

  /**
    The action table, in index order 0..15: for cabbage, goat and wolf in
    turn, left to boat, boat to left, right to boat, boat to right; then the
    rower alone, boat to left, boat to right, left to boat, right to boat.
    Every action goes between a bank and the transport, and only the last
    four leave the cargo behind.
   */
  function ActionAt(i: int): (a: Action)
    requires 0 <= i < NumActions
    ensures WellFormed(a)
    ensures a.mover.Alone? <==> 12 <= i
  {
    match i
    case 0 => Action(Carrying(Cabbage), Left, Transport)
    case 1 => Action(Carrying(Cabbage), Transport, Left)
    case 2 => Action(Carrying(Cabbage), Right, Transport)
    case 3 => Action(Carrying(Cabbage), Transport, Right)
    case 4 => Action(Carrying(Goat), Left, Transport)
    case 5 => Action(Carrying(Goat), Transport, Left)
    case 6 => Action(Carrying(Goat), Right, Transport)
    case 7 => Action(Carrying(Goat), Transport, Right)
    case 8 => Action(Carrying(Wolf), Left, Transport)
    case 9 => Action(Carrying(Wolf), Transport, Left)
    case 10 => Action(Carrying(Wolf), Right, Transport)
    case 11 => Action(Carrying(Wolf), Transport, Right)
    case 12 => Action(Alone, Transport, Left)
    case 13 => Action(Alone, Transport, Right)
    case 14 => Action(Alone, Left, Transport)
    case _ => Action(Alone, Right, Transport)
  }

  /** Every action goes between a bank and the transport. */
  predicate WellFormed(a: Action)
  {
    (a.from == Transport) != (a.to == Transport)
  }

  /** The entities an action relocates when it fires. */
  function Moved(a: Action): set<Entity>
  {
    match a.mover
    case Alone => {Boat}
    case Carrying(c) => {Boat, c}
  }

  /**
    The guard under which an action takes effect; it asks at least that
    everything the action relocates is at the source.
   */
  predicate Enabled(s: State, a: Action)
    ensures Enabled(s, a) ==> Moved(a) <= s.At(a.from)
  {
    match a.mover
    case Alone =>
      if a.from == Transport then |s.transport| == 1 && Boat in s.transport
      else Boat in s.At(a.from)
    case Carrying(c) => c in s.At(a.from) && Boat in s.At(a.from)
  }

  /**
    The successor of `s` under `a`: the boat moves first, then the cargo;
    when the guard fails the state is returned unchanged.
   */
  function NextState(s: State, a: Action): (r: State)
    ensures Enabled(s, a) && a.from != a.to ==>
      && r.At(a.from) == s.At(a.from) - Moved(a)
      && r.At(a.to) == s.At(a.to) + Moved(a)
      && r.At(Third(a.from, a.to)) == s.At(Third(a.from, a.to))
    ensures Partition(s) ==> Partition(r)
  {
    if !Enabled(s, a) then s
    else
      var rowed := Move(s, Boat, a.from, a.to);
      match a.mover
      case Alone => rowed
      case Carrying(c) => Move(rowed, c, a.from, a.to)
  }

  /**
    The validity rule, checked in order: the goal, then the left bank, then
    the right bank. Read as a whole, a state is valid exactly when it is the
    goal or neither bank leaves a predator with its prey without the boat;
    the transport plays no part.
   */
  function IsValid(s: State): (r: bool)
    ensures r <==> s == Goal || (Safe(s.left) && Safe(s.right))
  {
    if s == Goal then true
    else if {Goat, Wolf} <= s.left && Boat !in s.left then false
    else if {Goat, Cabbage} <= s.left && Boat !in s.left then false
    else if {Goat, Wolf} <= s.right && Boat !in s.right then false
    else if {Goat, Cabbage} <= s.right && Boat !in s.right then false
    else true
  }

  /** The goal test; the goal itself is a partitioned, valid state with an empty boat. */
  predicate IsWin(s: State)
    ensures IsWin(s) ==> Partition(s) && IsValid(s) && s.transport == {}
  {
    s == Goal
  }

  /** 100 for reaching the goal, nothing otherwise. */
  function Reward(s: State): (r: int)
    ensures r == 0 || r == 100
    ensures r != 0 <==> IsWin(s)
  {
    if s == Goal then 100 else 0
  }

  /**
    The environment object: its current state and its `done` flag. The flag
    is set on a terminal step and cleared only by `Reset`.
   */
  datatype Env = Env(state: State, done: bool)

  /** What `Step` hands back: the updated environment and the returned triple. */
  datatype StepResult = StepResult(env: Env, next: State, reward: int, done: bool)

  /** Back to the fixed start, whatever the environment held before. */
  function Reset(): (e: Env)
    ensures Inv(e.state) && IsValid(e.state) && !IsWin(e.state)
    ensures forall x :: x in e.state.left
    ensures !e.done
  {
    EveryEntity();
    Env(Start, false)
  }

  /** Applies action number `i` to the current state and commits the result. */
  function Step(e: Env, i: int): (r: StepResult)
    requires 0 <= i < NumActions
    ensures r.env.state == r.next == NextState(e.state, ActionAt(i))
    ensures r.done <==> !IsValid(r.next) || IsWin(r.next)
    ensures r.env.done == (r.done || e.done)
    ensures r.reward == 100 <==> IsWin(r.next)
    ensures r.reward == 0 || r.reward == 100
    ensures r.reward != 0 ==> r.done && IsValid(r.next)
  {
    var next := NextState(e.state, ActionAt(i));
    var reward := Reward(next);
    if !IsValid(next) then StepResult(Env(next, true), next, reward, true)
    else if IsWin(next) then StepResult(Env(next, true), next, reward, true)
    else StepResult(Env(next, e.done), next, reward, false)
  }

  /** All indices name an action. */
  predicate InRange(acts: seq<int>)
  {
    forall k :: 0 <= k < |acts| ==> 0 <= acts[k] < NumActions
  }

  /** The environment after stepping through `acts` in order. */
  function Run(e: Env, acts: seq<int>): Env
    requires InRange(acts)
    decreases |acts|
  {
    if acts == [] then e else Run(Step(e, acts[0]).env, acts[1..])
  }

  /** Stepping through a nonempty run ends in the environment its last step leaves. */
  lemma {:induction false} RunIsTraceEnd(e: Env, acts: seq<int>)
    requires InRange(acts)
    ensures acts != [] ==> Run(e, acts) == Trace(e, acts)[|acts| - 1].env
    decreases |acts|
  {
    if |acts| > 1 {
      RunIsTraceEnd(Step(e, acts[0]).env, acts[1..]);
    }
  }

  /** The results of stepping through `acts` in order, one per action. */
  function Trace(e: Env, acts: seq<int>): (t: seq<StepResult>)
    requires InRange(acts)
    ensures |t| == |acts|
    decreases |acts|
  {
    if acts == [] then []
    else
      var r := Step(e, acts[0]);
      [r] + Trace(r.env, acts[1..])
  }

  /**
    A trace is the chain of steps it stands for: the first steps `e`, and
    each later one steps the environment the one before it left behind.
   */
  lemma {:induction false} TraceSteps(e: Env, acts: seq<int>)
    requires InRange(acts)
    ensures acts != [] ==> Trace(e, acts)[0] == Step(e, acts[0])
    ensures forall j :: 1 <= j < |acts| ==> Trace(e, acts)[j] == Step(Trace(e, acts)[j - 1].env, acts[j])
    decreases |acts|
  {
    if acts != [] {
      var r := Step(e, acts[0]);
      var rest := Trace(r.env, acts[1..]);
      TraceSteps(r.env, acts[1..]);
      assert Trace(e, acts) == [r] + rest;
      forall j | 1 <= j < |acts|
        ensures Trace(e, acts)[j] == Step(Trace(e, acts)[j - 1].env, acts[j])
      {
        assert Trace(e, acts)[j] == rest[j - 1] && acts[j] == acts[1..][j - 1];
        if j >= 2 {
          assert Trace(e, acts)[j - 1] == rest[j - 2];
        }
      }
    }
  }

  /** `ws` lists the states that stepping through `acts` visits, in order. */
  predicate Follows(ws: seq<State>, acts: seq<int>)
    requires InRange(acts)
  {
    && |ws| == |acts| + 1
    && forall j :: 0 <= j < |acts| ==> NextState(ws[j], ActionAt(acts[j])) == ws[j + 1]
  }

  // ---------------------------------------------------------------------
  // Properties of the state machine
  // ---------------------------------------------------------------------

  /** Reference reading of the rule: who eats whom. */
  predicate Eats(x: Entity, y: Entity)
  {
    (x == Wolf && y == Goat) || (x == Goat && y == Cabbage)
  }

  /** No predator is alone with its prey on this bank. */
  predicate Safe(bank: set<Entity>)
  {
    forall x, y :: x in bank && y in bank && Eats(x, y) ==> Boat in bank
  }

  /** Two states that agree on both banks are equally valid, unless one is the goal. */
  lemma ValidityIgnoresTransport(s: State, t: State)
    requires s.left == t.left && s.right == t.right
    requires s != Goal && t != Goal
    ensures IsValid(s) == IsValid(t)
  {
  }

  /** On partitioned states the goal short-circuit changes nothing. */
  lemma ValidPartitioned(s: State)
    requires Partition(s)
    ensures IsValid(s) <==> Safe(s.left) && Safe(s.right)
  {
    if s == Goal {
      assert Boat in s.right && Boat !in s.left;
    }
  }

  /** An invalid state earns nothing: the goal is always valid. */
  lemma InvalidEarnsNothing(s: State)
    ensures !IsValid(s) ==> Reward(s) == 0
  {
  }

  lemma SingletonBoat(t: set<Entity>)
    requires |t| == 1 && Boat in t
    ensures t == {Boat}
  {
    var rest := t - {Boat};
    assert |rest| == 0;
    assert t == rest + {Boat};
  }

  /**
    An action changes the state exactly when its guard holds.
   */
  lemma NoOpIffDisabled(s: State, a: Action)
    requires WellFormed(a)
    ensures NextState(s, a) == s <==> !Enabled(s, a)
  {
    if Enabled(s, a) {
      var r := NextState(s, a);
      assert Boat in Moved(a);
      assert Boat !in r.At(a.from);
      assert Boat in s.At(a.from) by {
        if a.mover.Alone? && a.from == Transport {
          assert Boat in s.transport;
        }
      }
    }
  }

  /** One guarded move keeps the partition and the boat's capacity. */
  lemma NextStateKeepsInv(s: State, a: Action)
    requires Inv(s) && WellFormed(a)
    ensures Inv(NextState(s, a))
  {
    var r := NextState(s, a);
    if Enabled(s, a) {
      var rowed := Move(s, Boat, a.from, a.to);
      assert Partition(rowed);
      match a.mover
      case Alone =>
        if a.from == Transport {
          SingletonBoat(s.transport);
          assert r.transport == {};
        } else {
          assert Boat !in s.transport;
          assert s.transport == {};
          assert r.transport == {Boat};
        }
      case Carrying(c) =>
        assert Partition(Move(rowed, c, a.from, a.to));
        if a.from == Transport {
          assert s.transport <= {Boat, c};
          assert r.transport == {};
        } else {
          assert Boat !in s.transport;
          assert s.transport == {};
          assert r.transport == {Boat, c};
        }
    }
  }

  /** Every state reached from an invariant state keeps the invariant. */
  lemma {:induction false} RunKeepsInv(e: Env, acts: seq<int>)
    requires Inv(e.state) && InRange(acts)
    ensures Inv(Run(e, acts).state)
    decreases |acts|
  {
    if acts != [] {
      NextStateKeepsInv(e.state, ActionAt(acts[0]));
      RunKeepsInv(Step(e, acts[0]).env, acts[1..]);
    }
  }

  /**
    From `Reset`, after any sequence of in-range actions, every entity is at
    exactly one location and the boat carries at most one piece of cargo,
    never without its rower.
   */
  lemma ReachableInv(acts: seq<int>)
    requires InRange(acts)
    ensures Partition(Run(Reset(), acts).state)
    ensures Capacity(Run(Reset(), acts).state.transport)
  {
    RunKeepsInv(Reset(), acts);
  }

  /**
    Stepping through `acts` from the first of the states `ws` visits the
    rest of them, and each step reports the reward and the done flag of the
    state it reaches.
   */
  lemma {:induction false} TraceFollows(e: Env, acts: seq<int>, ws: seq<State>)
    requires InRange(acts) && Follows(ws, acts) && e.state == ws[0]
    ensures forall j :: 0 <= j < |acts| ==>
      && Trace(e, acts)[j].next == ws[j + 1]
      && Trace(e, acts)[j].reward == Reward(ws[j + 1])
      && (Trace(e, acts)[j].done <==> !IsValid(ws[j + 1]) || IsWin(ws[j + 1]))
    decreases |acts|
  {
    if acts != [] {
      var r := Step(e, acts[0]);
      assert Follows(ws[1..], acts[1..]) by {
        forall j | 0 <= j < |acts| - 1
          ensures NextState(ws[1..][j], ActionAt(acts[1..][j])) == ws[1..][j + 1]
        {
          assert NextState(ws[j + 1], ActionAt(acts[j + 1])) == ws[j + 2];
        }
      }
      TraceFollows(r.env, acts[1..], ws[1..]);
      var t := Trace(e, acts);
      assert t == [r] + Trace(r.env, acts[1..]);
      assert t[0] == r;
      assert r.next == ws[1] && r.reward == Reward(ws[1]);
      forall j | 1 <= j < |acts|
        ensures t[j] == Trace(r.env, acts[1..])[j - 1] && ws[1..][j] == ws[j + 1]
      {
      }
    }
  }

  /**
    A run through valid states that reaches the goal only at its last step
    ends the episode only there, and earns 100 only there.
   */
  lemma TraceToGoal(e: Env, acts: seq<int>, ws: seq<State>)
    requires InRange(acts) && Follows(ws, acts) && e.state == ws[0] && acts != []
    requires forall k :: 1 <= k < |ws| ==> IsValid(ws[k])
    requires forall k :: 1 <= k < |ws| ==> (IsWin(ws[k]) <==> k == |acts|)
    ensures forall j :: 0 <= j < |acts| ==> IsValid(Trace(e, acts)[j].next)
    ensures forall j :: 0 <= j < |acts| - 1 ==>
      !Trace(e, acts)[j].done && Trace(e, acts)[j].reward == 0
    ensures Trace(e, acts)[|acts| - 1].next == Goal
    ensures Trace(e, acts)[|acts| - 1].done && Trace(e, acts)[|acts| - 1].reward == 100
  {
    TraceFollows(e, acts, ws);
    var t := Trace(e, acts);
    forall j | 0 <= j < |t|
      ensures IsValid(t[j].next)
      ensures t[j].done <==> j == |acts| - 1
    {
      assert t[j].next == ws[j + 1];
    }
  }

  /**
    Each step earns 0 or 100, earns 100 exactly when it lands on the goal,
    and earns something only on a step that ends the episode.
   */
  predicate RewardsAsPromised(t: seq<StepResult>)
  {
    forall j :: 0 <= j < |t| ==>
      && (t[j].reward == 0 || t[j].reward == 100)
      && (t[j].reward == 100 <==> IsWin(t[j].next))
      && (t[j].reward != 0 ==> t[j].done)
  }

  /** Every trace rewards its steps as promised. */
  lemma {:induction false} TraceRewards(e: Env, acts: seq<int>)
    requires InRange(acts)
    ensures RewardsAsPromised(Trace(e, acts))
    decreases |acts|
  {
    if acts != [] {
      var r := Step(e, acts[0]);
      TraceRewards(r.env, acts[1..]);
      var t := Trace(e, acts);
      assert t == [r] + Trace(r.env, acts[1..]);
      forall j | 1 <= j < |acts|
        ensures t[j] == Trace(r.env, acts[1..])[j - 1]
      {
      }
    }
  }
}
