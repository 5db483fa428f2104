/** The current-trip state of the planner (store/tripStore.ts): the trip being
    viewed, a loading flag and an error message, with edits of the trip that
    build a new trip value and write it through to the local trip store. */
module TripState {
  import opened TripTypes
  import opened LocalStore

  /** `Partial<TripActivity>`: `Some` for each field the patch sets. */
  datatype ActivityPatch = ActivityPatch(
    time: Option<string>,
    place: Option<string>,
    description: Option<string>,
    cost: Option<string>,
    mapQuery: Option<string>,
    photoSpot: Option<bool>)

  const EmptyPatch: ActivityPatch := ActivityPatch(None, None, None, None, None, None)

  function Override<T>(old_value: T, patched: Option<T>): T {
    if patched.Some? then patched.value else old_value
  }

  /** `{ ...activity, ...patch }`. */
  function Patch(a: Activity, p: ActivityPatch): (r: Activity)
    ensures p.time.Some? ==> r.time == p.time.value
    ensures p.time.None? ==> r.time == a.time
    ensures p.place.Some? ==> r.place == p.place.value
    ensures p.place.None? ==> r.place == a.place
    ensures p.mapQuery.Some? ==> r.mapQuery == p.mapQuery.value
    ensures p.mapQuery.None? ==> r.mapQuery == a.mapQuery
  {
    Activity(
      Override(a.time, p.time), Override(a.place, p.place), Override(a.description, p.description),
      Override(a.cost, p.cost), Override(a.mapQuery, p.mapQuery),
      if p.photoSpot.Some? then Some(p.photoSpot.value) else a.photoSpot)
  }

  /** The activities of one day with the one at `index` patched. */
  function PatchAt(acts: seq<Activity>, index: int, p: ActivityPatch): seq<Activity> {
    seq(|acts|, k requires 0 <= k < |acts| => if k == index then Patch(acts[k], p) else acts[k])
  }

  /** The days of `updateActivity`: in every day numbered `dayNumber`, the activity at `index` is patched. */
  function UpdateActivityInDays(days: seq<Day>, dayNumber: int, index: int, p: ActivityPatch): seq<Day> {
    seq(|days|, i requires 0 <= i < |days| =>
      if days[i].day != dayNumber then days[i]
      else days[i].(activities := PatchAt(days[i].activities, index, p)))
  }

  /** The days of `replaceDay`: every day numbered `dayNumber` becomes `newDay`. */
  function ReplaceDayInDays(days: seq<Day>, dayNumber: int, newDay: Day): seq<Day> {
    seq(|days|, i requires 0 <= i < |days| => if days[i].day == dayNumber then newDay else days[i])
  }

  // ---------------------------------------------------------------------
  // Properties of the edits
  // ---------------------------------------------------------------------

  /** A patch sets the fields it names, keeps the others, and applying it again changes nothing. */
  lemma PatchSetsItsFields(a: Activity, p: ActivityPatch)
    ensures Patch(a, EmptyPatch) == a
    ensures Patch(Patch(a, p), p) == Patch(a, p)
    ensures Patch(a, p).description == Override(a.description, p.description)
    ensures Patch(a, p).cost == Override(a.cost, p.cost)
    ensures Patch(a, p).photoSpot == if p.photoSpot.Some? then Some(p.photoSpot.value) else a.photoSpot
  {
  }

  /** `updateActivity` keeps the number of days, every day's number, title and
      activity count, and changes only the activity at `index` in the days
      numbered `dayNumber`. */
  lemma UpdateActivityShape(days: seq<Day>, dayNumber: int, index: int, p: ActivityPatch)
    ensures var r := UpdateActivityInDays(days, dayNumber, index, p);
      && |r| == |days|
      && forall i | 0 <= i < |days| ::
        && r[i].day == days[i].day && r[i].title == days[i].title
        && |r[i].activities| == |days[i].activities|
        && forall k | 0 <= k < |days[i].activities| ::
             r[i].activities[k] == if days[i].day == dayNumber && k == index
                                   then Patch(days[i].activities[k], p) else days[i].activities[k]
  {
  }

  /** An index outside every matching day's activities changes nothing. */
  lemma UpdateActivityOutOfRange(days: seq<Day>, dayNumber: int, index: int, p: ActivityPatch)
    requires forall i | 0 <= i < |days| :: days[i].day == dayNumber ==> !(0 <= index < |days[i].activities|)
    ensures UpdateActivityInDays(days, dayNumber, index, p) == days
  {
    var r := UpdateActivityInDays(days, dayNumber, index, p);
    forall i | 0 <= i < |days| ensures r[i] == days[i] {
      if days[i].day == dayNumber {
        assert PatchAt(days[i].activities, index, p) == days[i].activities;
      }
    }
  }

  /** `replaceDay` replaces exactly the days numbered `dayNumber`, whatever number
      the new day carries, and doing it twice is doing it once. */
  lemma ReplaceDayShape(days: seq<Day>, dayNumber: int, newDay: Day)
    ensures var r := ReplaceDayInDays(days, dayNumber, newDay);
      && |r| == |days|
      && (forall i | 0 <= i < |days| :: days[i].day == dayNumber ==> r[i] == newDay)
      && (forall i | 0 <= i < |days| :: days[i].day != dayNumber ==> r[i] == days[i])
  {
  }

  lemma ReplaceDayIdempotent(days: seq<Day>, dayNumber: int, newDay: Day)
    requires newDay.day == dayNumber
    ensures ReplaceDayInDays(ReplaceDayInDays(days, dayNumber, newDay), dayNumber, newDay)
         == ReplaceDayInDays(days, dayNumber, newDay)
  {
  }

  /** Replacing a day number no day carries changes nothing. */
  lemma ReplaceAbsentDay(days: seq<Day>, dayNumber: int, newDay: Day)
    requires forall i | 0 <= i < |days| :: days[i].day != dayNumber
    ensures ReplaceDayInDays(days, dayNumber, newDay) == days
  {
  }

  // ---------------------------------------------------------------------
  // The state slice
  // ---------------------------------------------------------------------

  /** `useTripStore`: the trip on screen, whether a trip is being generated, the
      last error, and the storage every edit writes through to. */
  class TripSlice {
    const storage: TripStorage
    var currentTrip: Option<Trip>
    var isLoading: bool
    var error: Option<string>

    constructor (storage: TripStorage)
      ensures this.storage == storage
      ensures currentTrip == None && !isLoading && error == None
    {
      this.storage := storage;
      currentTrip := None;
      isLoading := false;
      error := None;
    }

    /** In the browser, the stored list now holds `t`, and no other trip with its id. */
    predicate Stored(t: Trip)
      reads storage
    {
      storage.inBrowser ==> t in storage.ReadAll() && CountId(storage.ReadAll(), t.id) == 1
    }

    /** `setTrip`: persist the trip, then show it and clear the error. */
    method SetTrip(t: Trip)
      modifies this, storage
      ensures storage.slot == AfterPersist(storage.inBrowser, old(storage.slot), t)
      ensures currentTrip == Some(t) && error == None && isLoading == old(isLoading)
      ensures Stored(t)
    {
      storage.Persist(t);
      currentTrip := Some(t);
      error := None;
    }

    /** `clearTrip`. */
    method ClearTrip()
      modifies this
      ensures currentTrip == None && isLoading == old(isLoading) && error == old(error)
    {
      currentTrip := None;
    }

    /** `setLoading`. */
    method SetLoading(value: bool)
      modifies this
      ensures isLoading == value && currentTrip == old(currentTrip) && error == old(error)
    {
      isLoading := value;
    }

    /** `setError`. */
    method SetError(message: Option<string>)
      modifies this
      ensures error == message && currentTrip == old(currentTrip) && isLoading == old(isLoading)
    {
      error := message;
    }

    /** `updateActivity`: without a current trip nothing happens; otherwise the
        patched trip is persisted and shown. */
    method UpdateActivity(dayNumber: int, activityIndex: int, patch: ActivityPatch)
      modifies this, storage
      ensures isLoading == old(isLoading) && error == old(error)
      ensures old(currentTrip).None? ==> currentTrip == None && storage.slot == old(storage.slot)
      ensures old(currentTrip).Some? ==>
        && currentTrip == Some(old(currentTrip).value.(days := UpdateActivityInDays(old(currentTrip).value.days, dayNumber, activityIndex, patch)))
        && storage.slot == AfterPersist(storage.inBrowser, old(storage.slot), currentTrip.value)
        && Stored(currentTrip.value)
    {
      if currentTrip.None? {
        return;
      }
      var trip := currentTrip.value;
      var updatedTrip := trip.(days := UpdateActivityInDays(trip.days, dayNumber, activityIndex, patch));
      storage.Persist(updatedTrip);
      currentTrip := Some(updatedTrip);
    }

    /** `replaceDay`: without a current trip nothing happens; otherwise the trip
        with the day replaced is persisted and shown. */
    method ReplaceDay(dayNumber: int, newDay: Day)
      modifies this, storage
      ensures isLoading == old(isLoading) && error == old(error)
      ensures old(currentTrip).None? ==> currentTrip == None && storage.slot == old(storage.slot)
      ensures old(currentTrip).Some? ==>
        && currentTrip == Some(old(currentTrip).value.(days := ReplaceDayInDays(old(currentTrip).value.days, dayNumber, newDay)))
        && storage.slot == AfterPersist(storage.inBrowser, old(storage.slot), currentTrip.value)
        && Stored(currentTrip.value)
    {
      if currentTrip.None? {
        return;
      }
      var trip := currentTrip.value;
      var updatedTrip := trip.(days := ReplaceDayInDays(trip.days, dayNumber, newDay));
      storage.Persist(updatedTrip);
      currentTrip := Some(updatedTrip);
    }
  }
}
