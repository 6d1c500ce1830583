/** The query resolvers for lifts (index.js:45-64). The lift collection, a
    module-level array loaded once and never changed, is passed to every
    resolver as an immutable sequence. */
module Resolvers {
  import opened Wrappers
  import opened Schema

  /** The positions of the lifts whose status is exactly `st`: an
      index-based reference definition for the filter below. */
  ghost function PositionsWithStatus(lifts: seq<Lift>, st: Option<LiftStatus>): set<int>
  {
    set i | 0 <= i < |lifts| && lifts[i].status == st
  }

  /** `lifts.filter(lift => lift.status === st)`: the lifts whose status is
      exactly `st`, in collection order. */
  function Matching(lifts: seq<Lift>, st: Option<LiftStatus>): (r: seq<Lift>)
    ensures |r| <= |lifts|
    ensures multiset(r) <= multiset(lifts)
    ensures forall x :: x in r ==> x.status == st
    ensures forall x :: x in lifts && x.status == st ==> x in r
  {
    if lifts == [] then []
    else
      var rest := Matching(lifts[1..], st);
      assert lifts == [lifts[0]] + lifts[1..];
      if lifts[0].status == st then [lifts[0]] + rest else rest
  }

  /** `allLifts: () => lifts`: the whole collection, unfiltered. */
  function AllLifts(lifts: seq<Lift>): (r: seq<Lift>)
    ensures |r| == |lifts|
    ensures forall i :: 0 <= i < |lifts| ==> r[i] == lifts[i]
  {
    lifts
  }

  /** `LiftCount(parent, { status })`: the number of lifts when no status is
      given (the argument is absent or `null`, the only falsy values it can
      take), and otherwise the number of lifts whose status is exactly the
      given one. */
  function LiftCount(lifts: seq<Lift>, status: Option<LiftStatus>): (n: nat)
    ensures n <= |lifts|
    ensures status.None? ==> n == |lifts|
    ensures status.Some? ==> n == |PositionsWithStatus(lifts, status)|
  {
    match status
    case None => |lifts|
    case Some(s) =>
      MatchingCountsPositions(lifts, status);
      |Matching(lifts, Some(s))|
  }

  /** `findLiftById(parent, args)`: `lifts.find(lift => args.id === lift.id)`,
      the first lift in collection order whose id is `id`, or `None` (the
      `undefined` that `find` gives) when no lift has that id. */
  function FindLiftById(lifts: seq<Lift>, id: string): (r: Option<Lift>)
    ensures r.Some? <==> exists i :: 0 <= i < |lifts| && lifts[i].id == id
    ensures r.Some? ==> r.value.id == id
    ensures r.Some? ==> exists i :: 0 <= i < |lifts| && lifts[i] == r.value
                                   && forall j :: 0 <= j < i ==> lifts[j].id != id
  {
    if lifts == [] then None
    else if lifts[0].id == id then Some(lifts[0])
    else
      var r := FindLiftById(lifts[1..], id);
      assert forall i :: 1 <= i < |lifts| ==> lifts[i] == lifts[1..][i - 1];
      r
  }

  /** Filtering a concatenation filters each part. */
  lemma {:induction false} MatchingAppend(a: seq<Lift>, b: seq<Lift>, st: Option<LiftStatus>)
    ensures Matching(a + b, st) == Matching(a, st) + Matching(b, st)
  {
    if a == [] {
      assert a + b == b;
    } else {
      assert (a + b)[1..] == a[1..] + b;
      MatchingAppend(a[1..], b, st);
    }
  }

  /** Adding one lift at the end adds its position when its status matches. */
  lemma PositionsSnoc(init: seq<Lift>, last: Lift, st: Option<LiftStatus>)
    ensures |PositionsWithStatus(init + [last], st)|
         == |PositionsWithStatus(init, st)| + (if last.status == st then 1 else 0)
  {
    var lifts, n := init + [last], |init|;
    var before, after := PositionsWithStatus(init, st), PositionsWithStatus(lifts, st);
    assert n !in before;
    var added := if last.status == st then {n} else {};
    assert after == before + added by {
      forall i ensures i in after <==> i in before + added {
        if 0 <= i < n { assert lifts[i] == init[i]; }
      }
    }
  }

  /** The filter keeps exactly as many lifts as there are positions holding a
      lift with the wanted status. */
  lemma {:induction false} MatchingCountsPositions(lifts: seq<Lift>, st: Option<LiftStatus>)
    ensures |Matching(lifts, st)| == |PositionsWithStatus(lifts, st)|
  {
    if lifts == [] {
      assert PositionsWithStatus(lifts, st) == {};
    } else {
      var init, last := lifts[..|lifts| - 1], lifts[|lifts| - 1];
      assert lifts == init + [last];
      MatchingAppend(init, [last], st);
      assert [last][1..] == [];
      MatchingCountsPositions(init, st);
      PositionsSnoc(init, last, st);
    }
  }
}
