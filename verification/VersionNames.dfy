/**
 * The names versions get in the history of a new archive folder: their own, or,
 * when that is taken, their own with the process's next number as a suffix. A
 * name whose suffixed form is taken as well cannot be placed.
 */
module VersionNames {
  import opened Wrappers
  import opened SessionsDir

  /** The names in use in a history, and the next number. */
  datatype Slots = Slots(taken: set<HName>, counter: nat)

  function SlotsOf(f: Folder, counter: nat): Slots {
    Slots(if f.history.None? then {} else f.history.value.Keys, counter)
  }

  function Dest(s: Slots, x: HName): HName {
    if x in s.taken then Suffixed(x, s.counter) else x
  }

  predicate Room(s: Slots, x: HName) {
    Dest(s, x) !in s.taken
  }

  function Placed(s: Slots, x: HName): Slots {
    Slots(s.taken + {Dest(s, x)}, if x in s.taken then s.counter + 1 else s.counter)
  }

  function PlacedAll(s: Slots, xs: seq<HName>): Slots
    decreases |xs|
  {
    if xs == [] then s else PlacedAll(Placed(s, xs[0]), xs[1..])
  }

  /** Each of the names, in this order, finds its own form or its suffixed form free. */
  predicate RoomForAll(s: Slots, xs: seq<HName>)
    decreases |xs|
  {
    xs == [] || (Room(s, xs[0]) && RoomForAll(Placed(s, xs[0]), xs[1..]))
  }

  lemma {:induction false} PlacedInTurn(s: Slots, a: seq<HName>, b: seq<HName>)
    ensures PlacedAll(s, a + b) == PlacedAll(PlacedAll(s, a), b)
    ensures RoomForAll(s, a + b) <==> RoomForAll(s, a) && RoomForAll(PlacedAll(s, a), b)
    decreases |a|
  {
    if a == [] {
      assert a + b == b;
    } else {
      assert (a + b)[0] == a[0] && (a + b)[1..] == a[1..] + b;
      hide Room, Placed;
      PlacedInTurn(Placed(s, a[0]), a[1..], b);
    }
  }

  lemma PlacedLast(s: Slots, xs: seq<HName>, i: nat)
    requires i < |xs|
    ensures PlacedAll(s, xs[..i + 1]) == Placed(PlacedAll(s, xs[..i]), xs[i])
    ensures RoomForAll(s, xs[..i + 1]) <==> RoomForAll(s, xs[..i]) && Room(PlacedAll(s, xs[..i]), xs[i])
  {
    var one := [xs[i]];
    assert xs[..i + 1] == xs[..i] + one;
    PlacedInTurn(s, xs[..i], one);
    assert one[0] == xs[i] && one[1..] == [];
    hide Room, Placed;
  }

  /** No suffix in use has a number still to come. */
  ghost predicate FreshSuffixes(names: set<HName>, counter: nat) {
    forall h :: h in names && h.Suffixed? ==> h.seqNo < counter
  }

  /** Where no suffix has a number still to come, there is room for everything. */
  lemma {:induction false} RoomIfFresh(s: Slots, xs: seq<HName>)
    requires FreshSuffixes(s.taken, s.counter) && forall x :: x in xs && x.Suffixed? ==> x.seqNo < s.counter
    ensures RoomForAll(s, xs)
    decreases |xs|
  {
    if xs != [] {
      assert xs[0] in xs;
      assert forall x :: x in xs[1..] ==> x in xs;
      RoomIfFresh(Placed(s, xs[0]), xs[1..]);
    }
  }

  predicate Distinct(xs: seq<HName>) {
    forall i, j :: 0 <= i < j < |xs| ==> xs[i] != xs[j]
  }

  /** Names that differ from each other and from those in use all keep their own form, whatever the counter. */
  lemma {:induction false} RoomIfDistinct(s: Slots, xs: seq<HName>)
    requires Distinct(xs) && forall x :: x in xs ==> x !in s.taken
    ensures RoomForAll(s, xs)
    ensures PlacedAll(s, xs) == Slots(s.taken + (set x | x in xs), s.counter)
    decreases |xs|
  {
    if xs != [] {
      assert xs[0] in xs;
      assert forall i :: 0 <= i < |xs[1..]| ==> xs[1..][i] == xs[i + 1];
      assert forall x :: x in xs <==> x == xs[0] || x in xs[1..];
      RoomIfDistinct(Placed(s, xs[0]), xs[1..]);
      assert s.taken + {xs[0]} + (set x | x in xs[1..]) == s.taken + (set x | x in xs);
    } else {
      assert s.taken + (set x | x in xs) == s.taken;
    }
  }

  /** One name more after distinct ones fails exactly if its own and its suffixed form are both among them. */
  lemma RoomForOneMore(counter: nat, xs: seq<HName>, x: HName)
    requires Distinct(xs)
    ensures RoomForAll(Slots({}, counter), xs + [x]) <==> !(x in xs && Suffixed(x, counter) in xs)
  {
    var s := Slots({}, counter);
    RoomIfDistinct(s, xs);
    PlacedLast(s, xs + [x], |xs|);
    assert (xs + [x])[..|xs|] == xs && (xs + [x])[..|xs| + 1] == xs + [x];
    assert forall y :: y in PlacedAll(s, xs).taken <==> y in xs;
  }
}
