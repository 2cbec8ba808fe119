/**
  The hashable form of a state: each location's set of entities turned into
  a sorted sequence, so that states can key the action-value table and
  compare equal whatever order their sets were built in.
 */
module Canon {
  import opened Environment

  /**
    The first code point of each entity's glyph. Strings sort by code
    point, and the four glyphs already differ in their first one, so this
    number alone decides the sort order: goat, wolf, boat, cabbage.
   */
  function CodePoint(e: Entity): nat
  {
    match e
    case Goat => 0x1F410
    case Wolf => 0x1F43A
    case Boat => 0x1F6A3
    case Cabbage => 0x1F966
  }

  /** Strictly ascending by code point, hence without repetitions. */
  predicate StrictlySorted(xs: seq<Entity>)
  {
    forall i, j :: 0 <= i < j < |xs| ==> CodePoint(xs[i]) < CodePoint(xs[j])
  }

  /** `[e]` when `e` is in `s`, otherwise nothing. */
  function IfIn(e: Entity, s: set<Entity>): seq<Entity>
  {
    if e in s then [e] else []
  }

  /**
    The members of `s` in ascending order. With four entities in all,
    sorting a subset amounts to picking its members out of the full list
    in code-point order.
   */
  function Sorted(s: set<Entity>): (xs: seq<Entity>)
    ensures StrictlySorted(xs)
    ensures forall x {:trigger x in xs} :: x in xs <==> x in s
    ensures |xs| == |s|
  {
    CountMembers(s);
    InOrder(s);
    PicksMembers(s);
    IfIn(Goat, s) + IfIn(Wolf, s) + IfIn(Boat, s) + IfIn(Cabbage, s)
  }

  /** Joining two sorted runs, the first wholly below the second, stays sorted. */
  lemma JoinSorted(xs: seq<Entity>, ys: seq<Entity>)
    requires StrictlySorted(xs) && StrictlySorted(ys)
    requires forall i, j :: 0 <= i < |xs| && 0 <= j < |ys| ==> CodePoint(xs[i]) < CodePoint(ys[j])
    ensures StrictlySorted(xs + ys)
  {
    var zs := xs + ys;
    forall i, j | 0 <= i < j < |zs|
      ensures CodePoint(zs[i]) < CodePoint(zs[j])
    {
      if j < |xs| {
        assert zs[i] == xs[i] && zs[j] == xs[j];
      } else if i < |xs| {
        assert zs[i] == xs[i] && zs[j] == ys[j - |xs|];
      } else {
        assert zs[i] == ys[i - |xs|] && zs[j] == ys[j - |xs|];
      }
    }
  }

  /** Picking members out in code-point order lists them in ascending order. */
  lemma InOrder(s: set<Entity>)
    ensures StrictlySorted(IfIn(Goat, s) + IfIn(Wolf, s) + IfIn(Boat, s) + IfIn(Cabbage, s))
  {
    var g, w, b, c := IfIn(Goat, s), IfIn(Wolf, s), IfIn(Boat, s), IfIn(Cabbage, s);
    JoinSorted(g, w);
    JoinSorted(g + w, b);
    JoinSorted(g + w + b, c);
  }

  /** Picking out each entity that is a member lists exactly the members. */
  lemma PicksMembers(s: set<Entity>)
    ensures forall x :: x in IfIn(Goat, s) + IfIn(Wolf, s) + IfIn(Boat, s) + IfIn(Cabbage, s) <==> x in s
  {
    var xs := IfIn(Goat, s) + IfIn(Wolf, s) + IfIn(Boat, s) + IfIn(Cabbage, s);
    forall x
      ensures x in xs <==> x in s
    {
      EveryEntity();
      assert x in AllEntities;
      assert x in xs <==> x in IfIn(Goat, s) || x in IfIn(Wolf, s) || x in IfIn(Boat, s) || x in IfIn(Cabbage, s);
    }
  }

  /** A subset's size counts its members one entity at a time. */
  lemma CountMembers(s: set<Entity>)
    ensures |s| == |IfIn(Goat, s)| + |IfIn(Wolf, s)| + |IfIn(Boat, s)| + |IfIn(Cabbage, s)|
  {
    EveryEntity();
    var s1 := s - {Goat};
    var s2 := s1 - {Wolf};
    var s3 := s2 - {Boat};
    var s4 := s3 - {Cabbage};
    forall x
      ensures x !in s4
    {
      assert x in AllEntities;
    }
    assert s4 == {};
    assert |s| == |s1| + |IfIn(Goat, s)|;
    assert |s1| == |s2| + |IfIn(Wolf, s)|;
    assert |s2| == |s3| + |IfIn(Boat, s)|;
    assert |s3| == |s4| + |IfIn(Cabbage, s)|;
  }

  /** The canonical form: one sorted sequence per location, in state order. */
  datatype Key = Key(left: seq<Entity>, transport: seq<Entity>, right: seq<Entity>)

  function StateToKey(s: State): (k: Key)
    ensures StrictlySorted(k.left) && StrictlySorted(k.transport) && StrictlySorted(k.right)
    ensures forall x {:trigger x in k.left} :: x in k.left <==> x in s.left
    ensures forall x {:trigger x in k.transport} :: x in k.transport <==> x in s.transport
    ensures forall x {:trigger x in k.right} :: x in k.right <==> x in s.right
    ensures |k.left| == |s.left| && |k.transport| == |s.transport| && |k.right| == |s.right|
  {
    Key(Sorted(s.left), Sorted(s.transport), Sorted(s.right))
  }

  /** Reads a key back as a state. */
  function KeyToState(k: Key): State
  {
    State(set x | x in k.left, set x | x in k.transport, set x | x in k.right)
  }

  /** A key whose every component is strictly sorted, as every canonical key is. */
  predicate WellSorted(k: Key)
  {
    StrictlySorted(k.left) && StrictlySorted(k.transport) && StrictlySorted(k.right)
  }

  /** The set of members of a listing of `s` is `s` itself. */
  lemma ListingMembers(xs: seq<Entity>, s: set<Entity>)
    requires forall x :: x in xs <==> x in s
    ensures (set x | x in xs) == s
  {
  }

  /** Reading a canonical key back gives the state it came from. */
  lemma KeyRoundTrip(s: State)
    ensures KeyToState(StateToKey(s)) == s
  {
    var k := StateToKey(s);
    ListingMembers(k.left, s.left);
    ListingMembers(k.transport, s.transport);
    ListingMembers(k.right, s.right);
  }

  /**
    A strictly sorted listing of a set is unique: whatever order the set
    was built or enumerated in, sorting it gives one and the same sequence.
   */
  lemma {:induction false} SortedUnique(xs: seq<Entity>, ys: seq<Entity>)
    requires StrictlySorted(xs) && StrictlySorted(ys)
    requires forall x :: x in xs <==> x in ys
    ensures xs == ys
    decreases |xs|
  {
    var first := if xs != [] then xs[0] else if ys != [] then ys[0] else Wolf;
    assert first in xs <==> first in ys;
    if xs != [] && ys != [] {
      assert xs[0] in ys && ys[0] in xs;
      assert xs[0] == ys[0];
      forall x
        ensures x in xs[1..] <==> x in ys[1..]
      {
        if x in xs[1..] {
          var i :| 0 <= i < |xs[1..]| && xs[1..][i] == x;
          assert x != xs[0] && x in ys;
          var k :| 0 <= k < |ys| && ys[k] == x;
          assert ys[1..][k - 1] == x;
        }
        if x in ys[1..] {
          var i :| 0 <= i < |ys[1..]| && ys[1..][i] == x;
          assert x != ys[0] && x in xs;
          var k :| 0 <= k < |xs| && xs[k] == x;
          assert xs[1..][k - 1] == x;
        }
      }
      SortedUnique(xs[1..], ys[1..]);
      assert xs == [xs[0]] + xs[1..];
      assert ys == [ys[0]] + ys[1..];
    }
  }

  /** Every well-sorted key is the canonical form of the state it reads as. */
  lemma KeyOfState(k: Key)
    requires WellSorted(k)
    ensures StateToKey(KeyToState(k)) == k
  {
    var k' := StateToKey(KeyToState(k));
    SortedUnique(k'.left, k.left);
    SortedUnique(k'.transport, k.transport);
    SortedUnique(k'.right, k.right);
  }

  /** Distinct states get distinct keys, and equal states equal keys. */
  lemma StateToKeyInjective(s: State, t: State)
    ensures StateToKey(s) == StateToKey(t) <==> s == t
  {
    KeyRoundTrip(s);
    KeyRoundTrip(t);
  }
}
