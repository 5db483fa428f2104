/** The trip-history state of the planner (store/historyStore.ts): the trips
    loaded so far, page by page, whether more pages remain, the cursor for
    the next page, and whether a page is being fetched. */
module HistoryState {
  import opened TripTypes

  /** The list without the first trip carrying `id` (unchanged when none does). */
  function RemoveFirstId(ts: seq<Trip>, id: string): seq<Trip> {
    if ts == [] then []
    else if ts[0].id == id then ts[1..]
    else [ts[0]] + RemoveFirstId(ts[1..], id)
  }

  /** What `addTripToTop` makes of the list: the trip first, then the others
      in their order, without the earlier entry of the same id. */
  function MoveToTop(ts: seq<Trip>, t: Trip): seq<Trip> {
    [t] + RemoveFirstId(ts, t.id)
  }

  // ---------------------------------------------------------------------
  // Properties of the reordering
  // ---------------------------------------------------------------------

  /** Removing the first trip with an id is cutting it at the index `findIndex`
      returns, and changes nothing when `findIndex` finds none. */
  lemma {:induction false} RemoveFirstIdAtIndex(ts: seq<Trip>, id: string)
    ensures var k := IndexOfId(ts, id);
      && (k >= 0 ==> RemoveFirstId(ts, id) == ts[..k] + ts[k + 1..])
      && (k < 0 ==> RemoveFirstId(ts, id) == ts)
  {
    if ts != [] && ts[0].id != id {
      var tl := ts[1..];
      RemoveFirstIdAtIndex(tl, id);
      var k := IndexOfId(tl, id);
      assert RemoveFirstId(ts, id) == [ts[0]] + RemoveFirstId(tl, id);
      if k >= 0 {
        assert IndexOfId(ts, id) == k + 1;
        assert ts[..k + 1] == [ts[0]] + tl[..k];
        assert ts[k + 2..] == tl[k + 1..];
      } else {
        assert IndexOfId(ts, id) == -1;
        assert ts == [ts[0]] + tl;
      }
    }
  }

  /** One entry fewer when the id is present, the same list when it is absent. */
  lemma {:induction false} RemoveFirstIdCount(ts: seq<Trip>, id: string)
    ensures CountId(ts, id) == 0 ==> RemoveFirstId(ts, id) == ts
    ensures CountId(ts, id) > 0 ==>
      && |RemoveFirstId(ts, id)| == |ts| - 1
      && CountId(RemoveFirstId(ts, id), id) == CountId(ts, id) - 1
  {
    if ts != [] && ts[0].id != id {
      RemoveFirstIdCount(ts[1..], id);
      if CountId(ts, id) == 0 {
        assert ts == [ts[0]] + ts[1..];
      } else {
        var r := RemoveFirstId(ts[1..], id);
        assert ([ts[0]] + r)[1..] == r;
      }
    }
  }

  /** Every trip of the result was in the list, and every trip of the list is in
      the result unless it is the first with the id. */
  lemma {:induction false} RemoveFirstIdMembers(ts: seq<Trip>, id: string, x: Trip)
    ensures x in RemoveFirstId(ts, id) ==> x in ts
    ensures x in ts && x.id != id ==> x in RemoveFirstId(ts, id)
  {
    if ts != [] && ts[0].id != id {
      RemoveFirstIdMembers(ts[1..], id, x);
      assert ts == [ts[0]] + ts[1..];
    }
  }

  /** After `addTripToTop` the trip is first and its id occurs once, if it
      occurred at most once before; the list grows exactly when the id is new. */
  lemma MoveToTopShape(ts: seq<Trip>, t: Trip)
    requires CountId(ts, t.id) <= 1
    ensures var r := MoveToTop(ts, t);
      && r[0] == t
      && CountId(r, t.id) == 1
      && |r| == if CountId(ts, t.id) == 0 then |ts| + 1 else |ts|
  {
    RemoveFirstIdCount(ts, t.id);
    var rest := RemoveFirstId(ts, t.id);
    assert MoveToTop(ts, t)[1..] == rest;
    CountIdZero(rest, t.id);
  }

  /** Putting a trip with a new id in front of a list without repeated ids. */
  lemma DistinctCons(x: Trip, r: seq<Trip>)
    requires DistinctIds(r) && forall y | y in r :: y.id != x.id
    ensures DistinctIds([x] + r)
  {
    var l := [x] + r;
    forall i, j | 0 <= i < j < |l| ensures l[i].id != l[j].id {
      assert l[j] == r[j - 1];
      if i > 0 {
        assert l[i] == r[i - 1];
      }
    }
  }

  /** The tail of a list without repeated ids has none, and none of the head's. */
  lemma DistinctTail(ts: seq<Trip>)
    requires ts != [] && DistinctIds(ts)
    ensures DistinctIds(ts[1..]) && forall y | y in ts[1..] :: y.id != ts[0].id
  {
    var tl := ts[1..];
    assert forall j | 0 <= j < |tl| :: tl[j] == ts[j + 1];
  }

  /** Without repeated ids, removing the entry with `id` leaves no entry with it,
      and still no repeated ids. */
  lemma {:induction false} RemoveFirstIdDistinct(ts: seq<Trip>, id: string)
    requires DistinctIds(ts)
    ensures DistinctIds(RemoveFirstId(ts, id))
    ensures forall y | y in RemoveFirstId(ts, id) :: y.id != id
  {
    if ts != [] {
      DistinctTail(ts);
      if ts[0].id != id {
        var r := RemoveFirstId(ts[1..], id);
        RemoveFirstIdDistinct(ts[1..], id);
        forall y | y in r ensures y.id != ts[0].id {
          RemoveFirstIdMembers(ts[1..], id, y);
        }
        DistinctCons(ts[0], r);
      } else {
        assert ts == [ts[0]] + ts[1..];
      }
    }
  }

  /** A list without repeated ids keeps that property. */
  lemma MoveToTopDistinct(ts: seq<Trip>, t: Trip)
    requires DistinctIds(ts)
    ensures DistinctIds(MoveToTop(ts, t))
  {
    RemoveFirstIdDistinct(ts, t.id);
    DistinctCons(t, RemoveFirstId(ts, t.id));
  }

  /** Adding the trip that is already on top changes nothing. */
  lemma MoveToTopIdempotent(ts: seq<Trip>, t: Trip)
    ensures MoveToTop(MoveToTop(ts, t), t) == MoveToTop(ts, t)
  {
    var r := MoveToTop(ts, t);
    assert r[0].id == t.id && r[1..] == RemoveFirstId(ts, t.id);
  }

  // ---------------------------------------------------------------------
  // The state slice
  // ---------------------------------------------------------------------

  /** `useHistoryStore`. */
  class HistorySlice {
    var trips: seq<Trip>
    var hasMore: bool
    var nextCursor: Option<string>
    var isFetching: bool

    constructor ()
      ensures trips == [] && hasMore && nextCursor == None && !isFetching
    {
      trips := [];
      hasMore := true;
      nextCursor := None;
      isFetching := false;
    }

    /** `setInitialPage`: the first page replaces the list; more pages remain
        exactly when the cursor is a non-empty string. */
    method SetInitialPage(page: seq<Trip>, cursor: Option<string>)
      modifies this
      ensures trips == page && nextCursor == cursor && hasMore == Truthy(cursor)
      ensures isFetching == old(isFetching)
    {
      trips := page;
      nextCursor := cursor;
      hasMore := Truthy(cursor);
    }

    /** `appendPage`: the page goes after the trips loaded so far. */
    method AppendPage(page: seq<Trip>, cursor: Option<string>)
      modifies this
      ensures trips == old(trips) + page && nextCursor == cursor && hasMore == Truthy(cursor)
      ensures isFetching == old(isFetching)
    {
      trips := trips + page;
      nextCursor := cursor;
      hasMore := Truthy(cursor);
    }

    /** `addTripToTop`, by `findIndex` and two slices. */
    method AddTripToTop(t: Trip)
      modifies this
      ensures trips == MoveToTop(old(trips), t)
      ensures hasMore == old(hasMore) && nextCursor == old(nextCursor) && isFetching == old(isFetching)
    {
      var existingIndex := IndexOfId(trips, t.id);
      RemoveFirstIdAtIndex(trips, t.id);
      if existingIndex >= 0 {
        trips := [t] + trips[..existingIndex] + trips[existingIndex + 1..];
      } else {
        trips := [t] + trips;
      }
    }

    /** `resetHistory`: back to the initial list and cursor; the fetching flag is kept. */
    method ResetHistory()
      modifies this
      ensures trips == [] && hasMore && nextCursor == None
      ensures isFetching == old(isFetching)
    {
      trips := [];
      hasMore := true;
      nextCursor := None;
    }

    /** `setIsFetching`. */
    method SetIsFetching(value: bool)
      modifies this
      ensures isFetching == value
      ensures trips == old(trips) && hasMore == old(hasMore) && nextCursor == old(nextCursor)
    {
      isFetching := value;
    }
  }
}
