/** The normaliser of untrusted planner output (lib/parser.ts): a parsed JSON
    value is coerced into a trip, dropping elements that are not records and
    filling missing fields with defaults, the way JavaScript's `??`, `||`,
    `String(...)` and `Number(...)` do. */
module Normalizer {
  import opened Text
  import opened TripTypes

  /** A value `JSON.parse` can produce. Numbers are integers here. */
  datatype Json =
    | JNull
    | JBool(b: bool)
    | JNumber(n: int)
    | JString(s: string)
    | JArray(items: seq<Json>)
    | JObject(fields: map<string, Json>)

  /** `isRecord`: `typeof value === "object" && value !== null`, so arrays count. */
  predicate IsRecord(v: Json) {
    v.JArray? || v.JObject?
  }

  /** `value[key]` on a record: `None` is `undefined`. An array has none of the
      keys the normaliser reads. */
  function Get(v: Json, key: string): Option<Json> {
    if v.JObject? && key in v.fields then Some(v.fields[key]) else None
  }

  /** `undefined` or `null`, the values `??` replaces. */
  predicate Nullish(v: Option<Json>) {
    v.None? || v.value.JNull?
  }

  /** `String(v)`. An array prints its elements joined by commas, with `null`
      printed as nothing; every other object prints as "[object Object]". */
  function JsString(v: Json): string
    decreases v, 1
  {
    match v
    case JNull => "null"
    case JBool(b) => if b then "true" else "false"
    case JNumber(n) => IntToString(n)
    case JString(s) => s
    case JArray(items) => JoinElements(v, items, 0)
    case JObject(_) => "[object Object]"
  }

  /** `items[i..].join(",")` for the elements of the array `whole`. */
  function JoinElements(whole: Json, items: seq<Json>, i: nat): string
    requires whole.JArray? && items == whole.items && i <= |items|
    decreases whole, 0, |items| - i
  {
    if i == |items| then ""
    else
      var e := if items[i].JNull? then "" else JsString(items[i]);
      if i + 1 == |items| then e else e + "," + JoinElements(whole, items, i + 1)
  }

  /** `String(v ?? fallback)` for a fallback that is a string. */
  function StringOr(v: Option<Json>, fallback: string): (r: string)
    ensures Nullish(v) ==> r == fallback
    ensures v.Some? && v.value.JString? ==> r == v.value.s
  {
    if Nullish(v) then fallback else JsString(v.value)
  }

  // ---------------------------------------------------------------------
  // Number(...)
  // ---------------------------------------------------------------------

  /** A decimal integer numeral with an optional sign. */
  predicate IsIntegerNumeral(t: string) {
    if |t| > 0 && (t[0] == '+' || t[0] == '-') then |t| > 1 && AllDigits(t[1..])
    else |t| > 0 && AllDigits(t)
  }

  /** `Number(s)` for a string: surrounding white space is ignored, the empty
      string is 0, a decimal integer numeral is its value, and anything else is
      `None` (NaN). */
  function NumberOfString(s: string): (r: Option<int>)
    ensures Trim(s) == [] ==> r == Some(0)
  {
    var t := Trim(s);
    if t == [] then Some(0)
    else if !IsIntegerNumeral(t) then None
    else if t[0] == '-' then Some(0 - DecimalValue(t[1..]) as int)
    else if t[0] == '+' then Some(DecimalValue(t[1..]))
    else Some(DecimalValue(t))
  }

  /** `Number(v)`: `None` stands for NaN. An array converts through its string. */
  function JsNumber(v: Json): Option<int> {
    match v
    case JNull => Some(0)
    case JBool(b) => Some(if b then 1 else 0)
    case JNumber(n) => Some(n)
    case JString(s) => NumberOfString(s)
    case JArray(_) => NumberOfString(JsString(v))
    case JObject(_) => None
  }

  /** `Number(item.day ?? 0) || 0`: NaN and every falsy number become 0. */
  function DayNumber(v: Option<Json>): (n: int)
    ensures Nullish(v) ==> n == 0
    ensures v.Some? && v.value.JNumber? ==> n == v.value.n
  {
    if Nullish(v) then 0
    else match JsNumber(v.value)
      case None => 0
      case Some(n) => n
  }

  // ---------------------------------------------------------------------
  // coerceActivities, coerceDays, normalizeAiTripResponse
  // ---------------------------------------------------------------------

  /** The activity made from a record element: every text field is `String(field ?? "")`,
      the map query falls back to the place, and no photo flag is set. */
  function CoerceActivity(item: Json): (a: Activity)
    ensures a.photoSpot.None?
    ensures a.time == StringOr(Get(item, "time"), "")
    ensures a.place == StringOr(Get(item, "place"), "")
    ensures a.description == StringOr(Get(item, "description"), "")
    ensures a.cost == StringOr(Get(item, "cost"), "")
    ensures a.mapQuery == if Nullish(Get(item, "mapQuery")) then a.place else JsString(Get(item, "mapQuery").value)
  {
    var mapQuery := Get(item, "mapQuery");
    Activity(
      StringOr(Get(item, "time"), ""),
      StringOr(Get(item, "place"), ""),
      StringOr(Get(item, "description"), ""),
      StringOr(Get(item, "cost"), ""),
      if Nullish(mapQuery) then StringOr(Get(item, "place"), "") else JsString(mapQuery.value),
      None)
  }

  /** `items.map(item => isRecord(item) ? f(item) : null).filter(x => !!x)`: the
      records among `items`, each converted by `f`, in order. */
  function MapRecords<T>(items: seq<Json>, f: Json -> T): (r: seq<T>)
    ensures |r| <= |items|
  {
    if items == [] then []
    else (if IsRecord(items[0]) then [f(items[0])] else []) + MapRecords(items[1..], f)
  }

  /** `coerceActivities`: a value that is not an array gives no activities. */
  function CoerceActivities(v: Option<Json>): seq<Activity> {
    if v.Some? && v.value.JArray? then MapRecords(v.value.items, CoerceActivity) else []
  }

  /** The title a day gets when it has none: "Day <n>", or "Day" when `n` is 0. */
  function DefaultTitle(n: int): string {
    Trim("Day " + (if n == 0 then "" else IntToString(n)))
  }

  /** The day made from a record element. */
  function CoerceDay(item: Json): (d: Day)
    ensures d.day == DayNumber(Get(item, "day"))
    ensures Nullish(Get(item, "title")) ==> d.title == DefaultTitle(d.day)
    ensures !Nullish(Get(item, "title")) ==> d.title == JsString(Get(item, "title").value)
    ensures d.activities == CoerceActivities(Get(item, "activities"))
  {
    var n := DayNumber(Get(item, "day"));
    Day(n, StringOr(Get(item, "title"), DefaultTitle(n)), CoerceActivities(Get(item, "activities")))
  }

  /** `coerceDays`. */
  function CoerceDays(v: Option<Json>): seq<Day> {
    if v.Some? && v.value.JArray? then MapRecords(v.value.items, CoerceDay) else []
  }

  /** The values `base.tripTitle` and `base.totalBudget` may hold: absent, null,
      a string, or a falsy boolean or number. A truthy value of another type
      would pass through `||` unconverted into a string field. */
  predicate TextOrFalsy(v: Option<Json>) {
    v.None? || v.value.JNull? || v.value.JString? || v.value == JBool(false) || v.value == JNumber(0)
  }

  /** `value || fallback` for a value allowed by `TextOrFalsy`. */
  function TextOr(v: Option<Json>, fallback: string): (r: string)
    requires TextOrFalsy(v)
    ensures r == fallback || (v == Some(JString(r)) && r != "")
    ensures v.Some? && v.value.JString? && v.value.s != "" ==> r == v.value.s
  {
    if v.Some? && v.value.JString? && v.value.s != "" then v.value.s else fallback
  }

  /** `normalizeAiTripResponse`, with the uuid and the clock passed in. */
  function Normalize(raw: Json, prompt: string, id: string, now: string): (t: Trip)
    requires IsRecord(raw) ==> TextOrFalsy(Get(raw, "tripTitle")) && TextOrFalsy(Get(raw, "totalBudget"))
    ensures t.id == id && t.createdAt == now && t.prompt == prompt
    ensures t.travelBreakdown.None? && t.tripTitle != ""
    ensures !IsRecord(raw) ==> t.tripTitle == "Untitled Trip" && t.totalBudget == "" && t.days == []
    ensures IsRecord(raw) ==> t.tripTitle == TextOr(Get(raw, "tripTitle"), "Untitled Trip")
    ensures IsRecord(raw) ==> t.totalBudget == TextOr(Get(raw, "totalBudget"), "")
    ensures IsRecord(raw) ==> t.days == CoerceDays(Get(raw, "days"))
  {
    if !IsRecord(raw) then
      Trip(id, now, prompt, "Untitled Trip", "", None, [])
    else
      Trip(id, now, prompt, TextOr(Get(raw, "tripTitle"), "Untitled Trip"), TextOr(Get(raw, "totalBudget"), ""),
        None, CoerceDays(Get(raw, "days")))
  }

  // ---------------------------------------------------------------------
  // Properties
  // ---------------------------------------------------------------------

  /** An array is a record with no fields the normaliser reads: a trip with no days. */
  lemma NormalizeArray(items: seq<Json>, prompt: string, id: string, now: string)
    ensures var t := Normalize(JArray(items), prompt, id, now);
      t.tripTitle == "Untitled Trip" && t.totalBudget == "" && t.days == []
  {
  }

  /** Converting two runs of elements one after the other converts each and
      concatenates: the survivors keep their order. */
  lemma {:induction false} MapRecordsAppend<T>(a: seq<Json>, b: seq<Json>, f: Json -> T)
    ensures MapRecords(a + b, f) == MapRecords(a, f) + MapRecords(b, f)
  {
    if a == [] {
      assert a + b == b;
    } else {
      var h := if IsRecord(a[0]) then [f(a[0])] else [];
      assert (a + b)[0] == a[0] && (a + b)[1..] == a[1..] + b;
      assert MapRecords(a + b, f) == h + MapRecords(a[1..] + b, f);
      MapRecordsAppend(a[1..], b, f);
      assert MapRecords(a, f) == h + MapRecords(a[1..], f);
    }
  }

  /** How many elements of `items` are records. */
  function RecordCount(items: seq<Json>): nat {
    if items == [] then 0 else (if IsRecord(items[0]) then 1 else 0) + RecordCount(items[1..])
  }

  /** One output per record element; when every element is a record, the `i`-th
      output is made from the `i`-th element. */
  lemma {:induction false} MapRecordsCount<T>(items: seq<Json>, f: Json -> T)
    ensures |MapRecords(items, f)| == RecordCount(items)
  {
    if items != [] {
      MapRecordsCount(items[1..], f);
    }
  }

  lemma {:induction false} MapRecordsOfRecords<T>(items: seq<Json>, f: Json -> T)
    requires forall i | 0 <= i < |items| :: IsRecord(items[i])
    ensures |MapRecords(items, f)| == |items|
    ensures forall i | 0 <= i < |items| :: MapRecords(items, f)[i] == f(items[i])
  {
    if items != [] {
      MapRecordsOfRecords(items[1..], f);
      assert forall i | 1 <= i < |items| :: items[i] == items[1..][i - 1];
    }
  }

  /** A non-record element is dropped, a record element gives exactly one output. */
  lemma MapRecordsSingle<T>(x: Json, f: Json -> T)
    ensures MapRecords([x], f) == if IsRecord(x) then [f(x)] else []
  {
    assert [x][1..] == [];
  }

  /** Without a map query, an activity's map query is its place. */
  lemma MapQueryFallsBackToPlace(item: Json)
    requires Nullish(Get(item, "mapQuery"))
    ensures CoerceActivity(item).mapQuery == CoerceActivity(item).place
  {
  }

  /** Trimming text that neither starts nor ends with a space leaves it as it is. */
  lemma TrimOfTrimmed(s: string)
    requires s != [] ==> !IsSpace(s[0]) && !IsSpace(s[|s| - 1])
    ensures Trim(s) == s
  {
    var a :| 0 <= a <= |s| && TrimmedAt(s, a, Trim(s));
    var r := Trim(s);
    if s != [] {
      assert !IsSpace(s[0]) && !IsSpace(s[|s| - 1]);
      assert a == 0;
      assert a + |r| == |s|;
    }
  }

  /** A day without a title is called "Day <n>", or just "Day" when its number is 0. */
  lemma DefaultTitleShape(n: int)
    ensures DefaultTitle(n) == if n == 0 then "Day" else "Day " + IntToString(n)
  {
    if n == 0 {
      var s := "Day ";
      assert LeadingSpaces(s) == 0;
      assert TextEnd(s, 0, 3) == 3;
      assert TextEnd(s, 0, 4) == 3;
      assert s[0..3] == "Day";
    } else {
      var t := "Day " + IntToString(n);
      var d := NatToString(if n < 0 then -n else n);
      assert !IsSpace(t[|t| - 1]) by {
        assert t[|t| - 1] == d[|d| - 1];
      }
      TrimOfTrimmed(t);
    }
  }

  /** A numeral printed by `NatToString`, as a string field, reads back as its value. */
  lemma DayNumberOfNumeral(n: nat)
    ensures DayNumber(Some(JString(NatToString(n)))) == n
  {
    var s := NatToString(n);
    assert !IsSpace(s[0]) && !IsSpace(s[|s| - 1]);
    TrimOfTrimmed(s);
    assert s[0] != '+' && s[0] != '-';
    DecimalValueOfNatToString(n);
  }

  /** A day number that is not a number at all, such as "abc", becomes 0. */
  lemma DayNumberOfText(s: string)
    requires s != [] && forall k | 0 <= k < |s| :: IsLetter(s[k])
    ensures DayNumber(Some(JString(s))) == 0
  {
    assert !IsSpace(s[0]) && !IsSpace(s[|s| - 1]);
    TrimOfTrimmed(s);
    assert !IsDigit(s[|s| - 1]);
  }

  // ---------------------------------------------------------------------
  // Round trip
  // ---------------------------------------------------------------------

  function RenderActivity(a: Activity): Json {
    JObject(map[
      "time" := JString(a.time), "place" := JString(a.place), "description" := JString(a.description),
      "cost" := JString(a.cost), "mapQuery" := JString(a.mapQuery)])
  }

  function RenderDay(d: Day): Json {
    JObject(map[
      "day" := JNumber(d.day), "title" := JString(d.title),
      "activities" := JArray(seq(|d.activities|, i requires 0 <= i < |d.activities| => RenderActivity(d.activities[i])))])
  }

  /** The JSON a planner would send for a trip. */
  function RenderTrip(t: Trip): Json {
    JObject(map[
      "tripTitle" := JString(t.tripTitle), "totalBudget" := JString(t.totalBudget),
      "days" := JArray(seq(|t.days|, i requires 0 <= i < |t.days| => RenderDay(t.days[i])))])
  }

  predicate NoPhotoFlags(d: Day) {
    forall k | 0 <= k < |d.activities| :: d.activities[k].photoSpot.None?
  }

  lemma CoerceRenderedActivity(a: Activity)
    requires a.photoSpot.None?
    ensures CoerceActivity(RenderActivity(a)) == a
  {
    var m := RenderActivity(a);
    assert Get(m, "time") == Some(JString(a.time));
    assert Get(m, "place") == Some(JString(a.place));
    assert Get(m, "description") == Some(JString(a.description));
    assert Get(m, "cost") == Some(JString(a.cost));
    assert Get(m, "mapQuery") == Some(JString(a.mapQuery));
  }

  lemma CoerceRenderedDay(d: Day)
    requires NoPhotoFlags(d)
    ensures CoerceDay(RenderDay(d)) == d
  {
    var m := RenderDay(d);
    var items := seq(|d.activities|, i requires 0 <= i < |d.activities| => RenderActivity(d.activities[i]));
    assert Get(m, "day") == Some(JNumber(d.day));
    assert Get(m, "title") == Some(JString(d.title));
    assert Get(m, "activities") == Some(JArray(items));
    MapRecordsOfRecords(items, CoerceActivity);
    forall i | 0 <= i < |items| ensures CoerceActivity(items[i]) == d.activities[i] {
      CoerceRenderedActivity(d.activities[i]);
    }
  }

  /** Normalising the JSON of a trip gives the trip back, as long as the trip has
      a title and none of what the normaliser never sets (a travel estimate, photo flags). */
  lemma NormalizeRenderedTrip(t: Trip)
    requires t.tripTitle != "" && t.travelBreakdown.None?
    requires forall i | 0 <= i < |t.days| :: NoPhotoFlags(t.days[i])
    ensures Normalize(RenderTrip(t), t.prompt, t.id, t.createdAt) == t
  {
    var m := RenderTrip(t);
    var items := seq(|t.days|, i requires 0 <= i < |t.days| => RenderDay(t.days[i]));
    assert Get(m, "tripTitle") == Some(JString(t.tripTitle));
    assert Get(m, "totalBudget") == Some(JString(t.totalBudget));
    assert Get(m, "days") == Some(JArray(items));
    MapRecordsOfRecords(items, CoerceDay);
    forall i | 0 <= i < |items| ensures CoerceDay(items[i]) == t.days[i] {
      CoerceRenderedDay(t.days[i]);
    }
    assert CoerceDays(Get(m, "days")) == t.days;
  }

  /** An activity given only a place: the map query is that place and the other
      text fields are empty. */
  lemma PlaceOnlyActivity(place: string)
    ensures CoerceActivity(JObject(map["place" := JString(place)])) == Activity("", place, "", "", place, None)
  {
    var act := JObject(map["place" := JString(place)]);
    assert Get(act, "place") == Some(JString(place));
    assert Get(act, "mapQuery") == None && Get(act, "time") == None;
    assert Get(act, "description") == None && Get(act, "cost") == None;
  }

  /** `{day: 1, activities: [{place: X}]}` is "Day 1" with that one activity. */
  lemma PlaceOnlyDay(place: string)
    ensures CoerceDay(JObject(map["day" := JNumber(1), "activities" := JArray([JObject(map["place" := JString(place)])])]))
      == Day(1, "Day 1", [Activity("", place, "", "", place, None)])
  {
    var act := JObject(map["place" := JString(place)]);
    var day := JObject(map["day" := JNumber(1), "activities" := JArray([act])]);
    assert Get(day, "title") == None;
    assert Get(day, "day") == Some(JNumber(1));
    assert Get(day, "activities") == Some(JArray([act]));
    DayOneTitle();
    MapRecordsSingle(act, CoerceActivity);
    PlaceOnlyActivity(place);
  }

  lemma DayOneTitle()
    ensures DefaultTitle(1) == "Day 1"
  {
    DefaultTitleShape(1);
    assert IntToString(1) == "1";
  }

  /** `{days: [{day: 1, activities: [{place: X}]}]}` gives an untitled trip of one
      day, "Day 1", whose one activity has the map query X. */
  lemma PlaceOnlyTrip(place: string)
    ensures var raw := JObject(map["days" := JArray([JObject(map["day" := JNumber(1),
                          "activities" := JArray([JObject(map["place" := JString(place)])])])])]);
      Normalize(raw, "p", "id", "now") ==
        Trip("id", "now", "p", "Untitled Trip", "", None, [Day(1, "Day 1", [Activity("", place, "", "", place, None)])])
  {
    var day := JObject(map["day" := JNumber(1), "activities" := JArray([JObject(map["place" := JString(place)])])]);
    var raw := JObject(map["days" := JArray([day])]);
    assert Get(raw, "days") == Some(JArray([day]));
    assert Get(raw, "tripTitle") == None && Get(raw, "totalBudget") == None;
    MapRecordsSingle(day, CoerceDay);
    PlaceOnlyDay(place);
  }
}
