/** Properties the lift resolvers keep over every collection, stated across
    several resolvers or several calls of one. */
module LiftProperties {
  import opened Wrappers
  import opened Schema
  import opened Resolvers

  /** The ids of `lifts` are pairwise distinct. The data is expected to be
      loaded this way; nothing in the resolvers checks it. */
  ghost predicate UniqueIds(lifts: seq<Lift>)
  {
    forall i, j :: 0 <= i < j < |lifts| ==> lifts[i].id != lifts[j].id
  }

  /** The filter's length grows by one for the first lift exactly when it
      matches. */
  lemma MatchingFirst(lifts: seq<Lift>, st: Option<LiftStatus>)
    requires lifts != []
    ensures |Matching(lifts, st)|
         == |Matching(lifts[1..], st)| + (if lifts[0].status == st then 1 else 0)
  {
  }

  /** Every lift has exactly one of the three statuses or none, so the
      three filters and the lifts without a status split the collection. */
  lemma {:induction false} StatusPartition(lifts: seq<Lift>)
    ensures |Matching(lifts, Some(OPEN))| + |Matching(lifts, Some(CLOSED))|
          + |Matching(lifts, Some(HOLD))| + |Matching(lifts, None)| == |lifts|
  {
    if lifts != [] {
      StatusPartition(lifts[1..]);
      MatchingFirst(lifts, Some(OPEN));
      MatchingFirst(lifts, Some(CLOSED));
      MatchingFirst(lifts, Some(HOLD));
      MatchingFirst(lifts, None);
      match lifts[0].status
      case None =>
      case Some(OPEN) =>
      case Some(CLOSED) =>
      case Some(HOLD) =>
    }
  }

  /** Because a lift's status may be null, the three per-status counts add up
      to at most the total count, and to exactly the total count if and only
      if every lift has a status. */
  lemma StatusCountsAtMostTotal(lifts: seq<Lift>)
    ensures LiftCount(lifts, Some(OPEN)) + LiftCount(lifts, Some(CLOSED))
          + LiftCount(lifts, Some(HOLD)) <= LiftCount(lifts, None)
    ensures LiftCount(lifts, Some(OPEN)) + LiftCount(lifts, Some(CLOSED))
          + LiftCount(lifts, Some(HOLD)) == LiftCount(lifts, None)
        <==> forall i :: 0 <= i < |lifts| ==> lifts[i].status.Some?
  {
    StatusPartition(lifts);
    if exists i :: 0 <= i < |lifts| && lifts[i].status.None? {
      var i :| 0 <= i < |lifts| && lifts[i].status.None?;
      assert lifts[i] in Matching(lifts, None);
    }
  }

  /** Counting with a status distributes over a concatenation of
      collections. */
  lemma LiftCountAppend(a: seq<Lift>, b: seq<Lift>, status: Option<LiftStatus>)
    ensures LiftCount(a + b, status) == LiftCount(a, status) + LiftCount(b, status)
  {
    if status.Some? {
      MatchingAppend(a, b, status);
    }
  }

  /** The converse of the first-match contract: the lift at the first
      position holding `id` is the one found. */
  lemma {:induction false} FindLiftByIdIsFirstMatch(lifts: seq<Lift>, id: string, i: int)
    requires 0 <= i < |lifts| && lifts[i].id == id
    requires forall j :: 0 <= j < i ==> lifts[j].id != id
    ensures FindLiftById(lifts, id) == Some(lifts[i])
  {
    if i > 0 {
      assert lifts[0].id != id;
      FindLiftByIdIsFirstMatch(lifts[1..], id, i - 1);
    }
  }

  /** With distinct ids, the lookup returns the one lift holding `id`. */
  lemma FindLiftByIdUnique(lifts: seq<Lift>, id: string, i: int)
    requires UniqueIds(lifts)
    requires 0 <= i < |lifts| && lifts[i].id == id
    ensures FindLiftById(lifts, id) == Some(lifts[i])
  {
    FindLiftByIdIsFirstMatch(lifts, id, i);
  }

  /** The resolvers agree with each other: `allLifts` has `LiftCount()`
      elements, and every lift it lists can be looked up by its id, giving
      a lift with that id that lies no later in the collection. */
  lemma AllLiftsAgreeWithOtherResolvers(lifts: seq<Lift>)
    ensures |AllLifts(lifts)| == LiftCount(lifts, None)
    ensures forall k :: 0 <= k < |lifts| ==>
      var found := FindLiftById(lifts, AllLifts(lifts)[k].id);
      found.Some? && found.value.id == lifts[k].id
  {
  }
}
