/** The records of the trip schema (types/trip.ts) and the id lookups the stores share. */
module TripTypes {

  datatype Option<+T> = None | Some(value: T)

  /** One stop of a day; `photoSpot` is an optional flag, absent when never set. */
  datatype Activity = Activity(
    time: string,
    place: string,
    description: string,
    cost: string,
    mapQuery: string,
    photoSpot: Option<bool>)

  datatype Day = Day(day: int, title: string, activities: seq<Activity>)

  datatype TravelBreakdown = TravelBreakdown(flight: string, train: string, bus: string, notes: Option<string>)

  datatype Trip = Trip(
    id: string,
    createdAt: string,
    prompt: string,
    tripTitle: string,
    totalBudget: string,
    travelBreakdown: Option<TravelBreakdown>,
    days: seq<Day>)

  /** JavaScript truthiness of a `string | null` value: null and "" are falsy. */
  predicate Truthy(s: Option<string>) {
    s.Some? && s.value != ""
  }

  /** `trips.findIndex(t => t.id === id)`. */
  function IndexOfId(trips: seq<Trip>, id: string): (r: int)
    ensures -1 <= r < |trips|
  {
    if |trips| == 0 then -1
    else if trips[0].id == id then 0
    else
      var k := IndexOfId(trips[1..], id);
      if k < 0 then -1 else k + 1
  }

  /** The result is the first index holding the id, or -1 when no entry holds it. */
  lemma {:induction false} IndexOfIdFirst(trips: seq<Trip>, id: string)
    ensures var r := IndexOfId(trips, id);
      && (r == -1 <==> forall i | 0 <= i < |trips| :: trips[i].id != id)
      && (r >= 0 ==> trips[r].id == id && forall i | 0 <= i < r :: trips[i].id != id)
  {
    if |trips| > 0 && trips[0].id != id {
      IndexOfIdFirst(trips[1..], id);
      assert forall i | 1 <= i < |trips| :: trips[i] == trips[1..][i - 1];
    }
  }

  /** How many entries carry the id. */
  function CountId(trips: seq<Trip>, id: string): nat {
    if trips == [] then 0 else (if trips[0].id == id then 1 else 0) + CountId(trips[1..], id)
  }

  lemma {:induction false} CountIdAppend(a: seq<Trip>, b: seq<Trip>, id: string)
    ensures CountId(a + b, id) == CountId(a, id) + CountId(b, id)
  {
    if a != [] {
      assert (a + b)[1..] == a[1..] + b;
      CountIdAppend(a[1..], b, id);
    } else {
      assert a + b == b;
    }
  }

  lemma {:induction false} CountIdZero(trips: seq<Trip>, id: string)
    ensures CountId(trips, id) == 0 <==> forall i | 0 <= i < |trips| :: trips[i].id != id
  {
    if trips != [] {
      CountIdZero(trips[1..], id);
      assert forall i | 1 <= i < |trips| :: trips[i] == trips[1..][i - 1];
    }
  }

  predicate DistinctIds(trips: seq<Trip>) {
    forall i, j | 0 <= i < j < |trips| :: trips[i].id != trips[j].id
  }
}
