/**
  A concrete winning play of the river crossing. Every crossing takes two
  actions: rower and cargo board the boat at one bank, then land together
  at the other.
 */
module Solution {
  import opened Environment

  /**
    Goat over, back alone, wolf over, goat back, cabbage over, back alone,
    goat over: seven crossings, fourteen actions.
   */
  const Plan: seq<int> := [4, 7, 15, 12, 8, 11, 6, 5, 0, 3, 15, 12, 4, 7]

  /** The state after the first `k` actions of the plan; the goal from the last on. */
  function Waypoint(k: int): State
  {
    match k
    case 0 => State({Wolf, Goat, Cabbage, Boat}, {}, {})
    case 1 => State({Wolf, Cabbage}, {Boat, Goat}, {})
    case 2 => State({Wolf, Cabbage}, {}, {Boat, Goat})
    case 3 => State({Wolf, Cabbage}, {Boat}, {Goat})
    case 4 => State({Wolf, Cabbage, Boat}, {}, {Goat})
    case 5 => State({Cabbage}, {Boat, Wolf}, {Goat})
    case 6 => State({Cabbage}, {}, {Boat, Goat, Wolf})
    case 7 => State({Cabbage}, {Boat, Goat}, {Wolf})
    case 8 => State({Cabbage, Boat, Goat}, {}, {Wolf})
    case 9 => State({Goat}, {Boat, Cabbage}, {Wolf})
    case 10 => State({Goat}, {}, {Boat, Wolf, Cabbage})
    case 11 => State({Goat}, {Boat}, {Wolf, Cabbage})
    case 12 => State({Goat, Boat}, {}, {Wolf, Cabbage})
    case 13 => State({}, {Boat, Goat}, {Wolf, Cabbage})
    case _ => State({}, {}, {Boat, Goat, Wolf, Cabbage})
  }

  // Each action of the plan is first checked on concrete states, one lemma
  // per action: the solver handles one concrete step at a time far better
  // than several at once.

  lemma PlanStep0()
    ensures NextState(State({Wolf, Goat, Cabbage, Boat}, {}, {}), Action(Carrying(Goat), Left, Transport)) == State({Wolf, Cabbage}, {Boat, Goat}, {})
    ensures IsValid(State({Wolf, Cabbage}, {Boat, Goat}, {})) && !IsWin(State({Wolf, Cabbage}, {Boat, Goat}, {}))
  {
  }

  lemma PlanStep1()
    ensures NextState(State({Wolf, Cabbage}, {Boat, Goat}, {}), Action(Carrying(Goat), Transport, Right)) == State({Wolf, Cabbage}, {}, {Boat, Goat})
    ensures IsValid(State({Wolf, Cabbage}, {}, {Boat, Goat})) && !IsWin(State({Wolf, Cabbage}, {}, {Boat, Goat}))
  {
  }

  lemma PlanStep2()
    ensures NextState(State({Wolf, Cabbage}, {}, {Boat, Goat}), Action(Alone, Right, Transport)) == State({Wolf, Cabbage}, {Boat}, {Goat})
    ensures IsValid(State({Wolf, Cabbage}, {Boat}, {Goat})) && !IsWin(State({Wolf, Cabbage}, {Boat}, {Goat}))
  {
  }

  lemma PlanStep3()
    ensures NextState(State({Wolf, Cabbage}, {Boat}, {Goat}), Action(Alone, Transport, Left)) == State({Wolf, Cabbage, Boat}, {}, {Goat})
    ensures IsValid(State({Wolf, Cabbage, Boat}, {}, {Goat})) && !IsWin(State({Wolf, Cabbage, Boat}, {}, {Goat}))
  {
  }

  lemma PlanStep4()
    ensures NextState(State({Wolf, Cabbage, Boat}, {}, {Goat}), Action(Carrying(Wolf), Left, Transport)) == State({Cabbage}, {Boat, Wolf}, {Goat})
    ensures IsValid(State({Cabbage}, {Boat, Wolf}, {Goat})) && !IsWin(State({Cabbage}, {Boat, Wolf}, {Goat}))
  {
  }

  lemma PlanStep5()
    ensures NextState(State({Cabbage}, {Boat, Wolf}, {Goat}), Action(Carrying(Wolf), Transport, Right)) == State({Cabbage}, {}, {Boat, Goat, Wolf})
    ensures IsValid(State({Cabbage}, {}, {Boat, Goat, Wolf})) && !IsWin(State({Cabbage}, {}, {Boat, Goat, Wolf}))
  {
  }

  lemma PlanStep6()
    ensures NextState(State({Cabbage}, {}, {Boat, Goat, Wolf}), Action(Carrying(Goat), Right, Transport)) == State({Cabbage}, {Boat, Goat}, {Wolf})
    ensures IsValid(State({Cabbage}, {Boat, Goat}, {Wolf})) && !IsWin(State({Cabbage}, {Boat, Goat}, {Wolf}))
  {
  }

  lemma PlanStep7()
    ensures NextState(State({Cabbage}, {Boat, Goat}, {Wolf}), Action(Carrying(Goat), Transport, Left)) == State({Cabbage, Boat, Goat}, {}, {Wolf})
    ensures IsValid(State({Cabbage, Boat, Goat}, {}, {Wolf})) && !IsWin(State({Cabbage, Boat, Goat}, {}, {Wolf}))
  {
  }

  lemma PlanStep8()
    ensures NextState(State({Cabbage, Boat, Goat}, {}, {Wolf}), Action(Carrying(Cabbage), Left, Transport)) == State({Goat}, {Boat, Cabbage}, {Wolf})
    ensures IsValid(State({Goat}, {Boat, Cabbage}, {Wolf})) && !IsWin(State({Goat}, {Boat, Cabbage}, {Wolf}))
  {
  }

  lemma PlanStep9()
    ensures NextState(State({Goat}, {Boat, Cabbage}, {Wolf}), Action(Carrying(Cabbage), Transport, Right)) == State({Goat}, {}, {Boat, Wolf, Cabbage})
    ensures IsValid(State({Goat}, {}, {Boat, Wolf, Cabbage})) && !IsWin(State({Goat}, {}, {Boat, Wolf, Cabbage}))
  {
  }

  lemma PlanStep10()
    ensures NextState(State({Goat}, {}, {Boat, Wolf, Cabbage}), Action(Alone, Right, Transport)) == State({Goat}, {Boat}, {Wolf, Cabbage})
    ensures IsValid(State({Goat}, {Boat}, {Wolf, Cabbage})) && !IsWin(State({Goat}, {Boat}, {Wolf, Cabbage}))
  {
  }

  lemma PlanStep11()
    ensures NextState(State({Goat}, {Boat}, {Wolf, Cabbage}), Action(Alone, Transport, Left)) == State({Goat, Boat}, {}, {Wolf, Cabbage})
    ensures IsValid(State({Goat, Boat}, {}, {Wolf, Cabbage})) && !IsWin(State({Goat, Boat}, {}, {Wolf, Cabbage}))
  {
  }

  lemma PlanStep12()
    ensures NextState(State({Goat, Boat}, {}, {Wolf, Cabbage}), Action(Carrying(Goat), Left, Transport)) == State({}, {Boat, Goat}, {Wolf, Cabbage})
    ensures IsValid(State({}, {Boat, Goat}, {Wolf, Cabbage})) && !IsWin(State({}, {Boat, Goat}, {Wolf, Cabbage}))
  {
  }

  lemma PlanStep13()
    ensures NextState(State({}, {Boat, Goat}, {Wolf, Cabbage}), Action(Carrying(Goat), Transport, Right)) == State({}, {}, {Boat, Goat, Wolf, Cabbage})
    ensures IsValid(State({}, {}, {Boat, Goat, Wolf, Cabbage})) && IsWin(State({}, {}, {Boat, Goat, Wolf, Cabbage}))
  {
  }

  /** Action `k` of the plan leads from waypoint `k` to a valid waypoint `k + 1`. */
  lemma PlanStep(k: nat)
    requires k < |Plan|
    ensures NextState(Waypoint(k), ActionAt(Plan[k])) == Waypoint(k + 1)
    ensures IsValid(Waypoint(k + 1))
    ensures IsWin(Waypoint(k + 1)) <==> k == |Plan| - 1
  {
    if k == 0 {
      PlanStep0();
      assert Waypoint(0) == State({Wolf, Goat, Cabbage, Boat}, {}, {});
      assert Waypoint(1) == State({Wolf, Cabbage}, {Boat, Goat}, {});
      assert Plan[0] == 4;
      assert ActionAt(4) == Action(Carrying(Goat), Left, Transport);
    } else if k == 1 {
      PlanStep1();
      assert Waypoint(1) == State({Wolf, Cabbage}, {Boat, Goat}, {});
      assert Waypoint(2) == State({Wolf, Cabbage}, {}, {Boat, Goat});
      assert Plan[1] == 7;
      assert ActionAt(7) == Action(Carrying(Goat), Transport, Right);
    } else if k == 2 {
      PlanStep2();
      assert Waypoint(2) == State({Wolf, Cabbage}, {}, {Boat, Goat});
      assert Waypoint(3) == State({Wolf, Cabbage}, {Boat}, {Goat});
      assert Plan[2] == 15;
      assert ActionAt(15) == Action(Alone, Right, Transport);
    } else if k == 3 {
      PlanStep3();
      assert Waypoint(3) == State({Wolf, Cabbage}, {Boat}, {Goat});
      assert Waypoint(4) == State({Wolf, Cabbage, Boat}, {}, {Goat});
      assert Plan[3] == 12;
      assert ActionAt(12) == Action(Alone, Transport, Left);
    } else if k == 4 {
      PlanStep4();
      assert Waypoint(4) == State({Wolf, Cabbage, Boat}, {}, {Goat});
      assert Waypoint(5) == State({Cabbage}, {Boat, Wolf}, {Goat});
      assert Plan[4] == 8;
      assert ActionAt(8) == Action(Carrying(Wolf), Left, Transport);
    } else if k == 5 {
      PlanStep5();
      assert Waypoint(5) == State({Cabbage}, {Boat, Wolf}, {Goat});
      assert Waypoint(6) == State({Cabbage}, {}, {Boat, Goat, Wolf});
      assert Plan[5] == 11;
      assert ActionAt(11) == Action(Carrying(Wolf), Transport, Right);
    } else if k == 6 {
      PlanStep6();
      assert Waypoint(6) == State({Cabbage}, {}, {Boat, Goat, Wolf});
      assert Waypoint(7) == State({Cabbage}, {Boat, Goat}, {Wolf});
      assert Plan[6] == 6;
      assert ActionAt(6) == Action(Carrying(Goat), Right, Transport);
    } else if k == 7 {
      PlanStep7();
      assert Waypoint(7) == State({Cabbage}, {Boat, Goat}, {Wolf});
      assert Waypoint(8) == State({Cabbage, Boat, Goat}, {}, {Wolf});
      assert Plan[7] == 5;
      assert ActionAt(5) == Action(Carrying(Goat), Transport, Left);
    } else if k == 8 {
      PlanStep8();
      assert Waypoint(8) == State({Cabbage, Boat, Goat}, {}, {Wolf});
      assert Waypoint(9) == State({Goat}, {Boat, Cabbage}, {Wolf});
      assert Plan[8] == 0;
      assert ActionAt(0) == Action(Carrying(Cabbage), Left, Transport);
    } else if k == 9 {
      PlanStep9();
      assert Waypoint(9) == State({Goat}, {Boat, Cabbage}, {Wolf});
      assert Waypoint(10) == State({Goat}, {}, {Boat, Wolf, Cabbage});
      assert Plan[9] == 3;
      assert ActionAt(3) == Action(Carrying(Cabbage), Transport, Right);
    } else if k == 10 {
      PlanStep10();
      assert Waypoint(10) == State({Goat}, {}, {Boat, Wolf, Cabbage});
      assert Waypoint(11) == State({Goat}, {Boat}, {Wolf, Cabbage});
      assert Plan[10] == 15;
      assert ActionAt(15) == Action(Alone, Right, Transport);
    } else if k == 11 {
      PlanStep11();
      assert Waypoint(11) == State({Goat}, {Boat}, {Wolf, Cabbage});
      assert Waypoint(12) == State({Goat, Boat}, {}, {Wolf, Cabbage});
      assert Plan[11] == 12;
      assert ActionAt(12) == Action(Alone, Transport, Left);
    } else if k == 12 {
      PlanStep12();
      assert Waypoint(12) == State({Goat, Boat}, {}, {Wolf, Cabbage});
      assert Waypoint(13) == State({}, {Boat, Goat}, {Wolf, Cabbage});
      assert Plan[12] == 4;
      assert ActionAt(4) == Action(Carrying(Goat), Left, Transport);
    } else {
      PlanStep13();
      assert Waypoint(13) == State({}, {Boat, Goat}, {Wolf, Cabbage});
      assert Waypoint(14) == State({}, {}, {Boat, Goat, Wolf, Cabbage});
      assert Plan[13] == 7;
      assert ActionAt(7) == Action(Carrying(Goat), Transport, Right);
    }
  }

  /** The waypoints in order, from the start to the goal. */
  const Waypoints: seq<State> := seq(|Plan| + 1, Waypoint)

  /** The plan lists legal action indices and visits the waypoints in order. */
  lemma PlanFollowsWaypoints()
    ensures InRange(Plan) && Follows(Waypoints, Plan)
    ensures forall k :: 1 <= k <= |Plan| ==> IsValid(Waypoints[k])
    ensures forall k :: 1 <= k <= |Plan| ==> (IsWin(Waypoints[k]) <==> k == |Plan|)
  {
    forall j | 0 <= j < |Plan|
      ensures 0 <= Plan[j] < NumActions
      ensures NextState(Waypoints[j], ActionAt(Plan[j])) == Waypoints[j + 1]
    {
      PlanStep(j);
    }
    forall k | 1 <= k <= |Plan|
      ensures IsValid(Waypoints[k])
      ensures IsWin(Waypoints[k]) <==> k == |Plan|
    {
      PlanStep(k - 1);
    }
  }

  /**
    Starting from any environment whose state is the start, the plan
    reaches the goal: every state on the way is valid, no step before the
    last ends the episode or earns anything, and the last step reaches the
    goal, ends the episode and earns 100.
   */
  lemma PlanSolvesPuzzle(e: Env)
    requires e.state == Start
    ensures InRange(Plan)
    ensures |Trace(e, Plan)| == |Plan|
    ensures forall j :: 0 <= j < |Plan| ==> IsValid(Trace(e, Plan)[j].next)
    ensures forall j :: 0 <= j < |Plan| - 1 ==>
      !Trace(e, Plan)[j].done && Trace(e, Plan)[j].reward == 0
    ensures Trace(e, Plan)[|Plan| - 1].next == Goal
    ensures Trace(e, Plan)[|Plan| - 1].done && Trace(e, Plan)[|Plan| - 1].reward == 100
  {
    PlanFollowsWaypoints();
    TraceToGoal(e, Plan, Waypoints);
  }
}
