/** The rule-based itinerary generator (lib/ai.ts): the destination vibe, the
    travel-cost table, the activity templates and the trip `generateTrip` builds
    from a prompt. The prompt scanners it uses are in module Prompt. */
module Planner {
  import opened Text
  import opened TripTypes
  import opened Prompt

  // ---------------------------------------------------------------------
  // getDestinationVibe
  // ---------------------------------------------------------------------

  datatype Vibe = Religious | Mountain | Beach | City | HillStation | General

  const ReligiousPlaces: seq<string> := ["rishikesh", "haridwar", "varanasi", "ayodhya", "tirupati", "amritsar", "dwarka"]
  const MountainPlaces: seq<string> := [
    "manali", "shimla", "mussoorie", "nainital", "darjeeling", "munnar", "ooty", "leh", "ladakh", "spiti", "kasol", "bir"]
  const BeachPlaces: seq<string> := ["goa", "pondi", "pondicherry", "kovalam", "varkala", "andaman", "gokarna", "mahabalipuram"]
  const CityPlaces: seq<string> := ["bangalore", "mumbai", "delhi", "hyderabad", "chennai", "kolkata", "pune"]
  const MountainWords: seq<string> := ["mountain", "trek", "trekking", "hills", "snow"]
  const BeachWords: seq<string> := ["beach", "beaches", "sea", "coast"]
  const ReligiousWords: seq<string> := ["temple", "holy", "spiritual", "yoga", "meditation"]

  /** The classifier's decision list: the word lists it tests, in order, and the vibe each gives. */
  const VibeRules: seq<(seq<string>, Vibe)> := [
    (ReligiousPlaces, Religious), (MountainPlaces, Mountain), (BeachPlaces, Beach), (CityPlaces, City),
    (MountainWords, Mountain), (BeachWords, Beach), (ReligiousWords, Religious)]

  /** `getDestinationVibe`: the first list with a word that occurs whole in the
      lower-cased prompt decides; the destination itself is not consulted. */
  function DestinationVibe(destination: string, lower: string): (v: Vibe)
    ensures v != HillStation
  {
    if HasAnyWord(lower, ReligiousPlaces) then Religious
    else if HasAnyWord(lower, MountainPlaces) then Mountain
    else if HasAnyWord(lower, BeachPlaces) then Beach
    else if HasAnyWord(lower, CityPlaces) then City
    else if HasAnyWord(lower, MountainWords) then Mountain
    else if HasAnyWord(lower, BeachWords) then Beach
    else if HasAnyWord(lower, ReligiousWords) then Religious
    else General
  }

  /** A decision list read from the `i`-th rule on: the first rule that matches gives the vibe. */
  function FirstRuleVibe(lower: string, rules: seq<(seq<string>, Vibe)>, i: nat): (v: Vibe)
    requires i <= |rules|
    decreases |rules| - i
  {
    if i == |rules| then General
    else if HasAnyWord(lower, rules[i].0) then rules[i].1
    else FirstRuleVibe(lower, rules, i + 1)
  }

  /** The if-chain is the decision list `VibeRules` evaluated in order. */
  lemma DestinationVibeIsDecisionList(destination: string, lower: string)
    ensures DestinationVibe(destination, lower) == FirstRuleVibe(lower, VibeRules, 0)
  {
    var rules := VibeRules;
    assert FirstRuleVibe(lower, rules, 7) == General;
    assert FirstRuleVibe(lower, rules, 6) == if HasAnyWord(lower, ReligiousWords) then Religious else General;
    assert FirstRuleVibe(lower, rules, 5) == if HasAnyWord(lower, BeachWords) then Beach else FirstRuleVibe(lower, rules, 6);
    assert FirstRuleVibe(lower, rules, 4) == if HasAnyWord(lower, MountainWords) then Mountain else FirstRuleVibe(lower, rules, 5);
    assert FirstRuleVibe(lower, rules, 3) == if HasAnyWord(lower, CityPlaces) then City else FirstRuleVibe(lower, rules, 4);
    assert FirstRuleVibe(lower, rules, 2) == if HasAnyWord(lower, BeachPlaces) then Beach else FirstRuleVibe(lower, rules, 3);
    assert FirstRuleVibe(lower, rules, 1) == if HasAnyWord(lower, MountainPlaces) then Mountain else FirstRuleVibe(lower, rules, 2);
  }

  /** A decision list whose rules never give `General` gives it exactly when no rule matches. */
  lemma {:induction false} FirstRuleVibeGeneral(lower: string, rules: seq<(seq<string>, Vibe)>, i: nat)
    requires i <= |rules|
    requires forall q | 0 <= q < |rules| :: rules[q].1 != General
    ensures FirstRuleVibe(lower, rules, i) == General <==> forall q | i <= q < |rules| :: !HasAnyWord(lower, rules[q].0)
    decreases |rules| - i
  {
    if i < |rules| {
      FirstRuleVibeGeneral(lower, rules, i + 1);
    }
  }

  /** The general vibe is chosen exactly when no word of any list occurs in the prompt. */
  lemma DestinationVibeGeneralIff(destination: string, lower: string)
    ensures DestinationVibe(destination, lower) == General <==>
      forall q | 0 <= q < |VibeRules| :: !HasAnyWord(lower, VibeRules[q].0)
  {
    DestinationVibeIsDecisionList(destination, lower);
    FirstRuleVibeGeneral(lower, VibeRules, 0);
  }

  /** The rule that decides is one that matches, after no earlier rule matched. */
  lemma {:induction false} FirstRuleVibeFirstMatch(lower: string, rules: seq<(seq<string>, Vibe)>, i: nat, r: nat)
    requires i <= r < |rules|
    requires HasAnyWord(lower, rules[r].0)
    requires forall q | i <= q < r :: !HasAnyWord(lower, rules[q].0)
    ensures FirstRuleVibe(lower, rules, i) == rules[r].1
    decreases r - i
  {
    if i < r {
      FirstRuleVibeFirstMatch(lower, rules, i + 1, r);
    }
  }

  /** The vibe depends on the prompt alone. */
  lemma VibeIgnoresDestination(d1: string, d2: string, lower: string)
    ensures DestinationVibe(d1, lower) == DestinationVibe(d2, lower)
  {
  }

  // ---------------------------------------------------------------------
  // TRAVEL_ESTIMATES and getTravelBreakdown
  // ---------------------------------------------------------------------

  /** The estimates table, in the declaration order `Object.keys` reports. */
  const Estimates: seq<(string, TravelBreakdown)> := [
    ("rishikesh", TravelBreakdown("N/A (nearest: Dehradun ~₹3–5k)", "₹400–800", "₹500–1k", Some("Dehradun airport then cab/bus."))),
    ("haridwar", TravelBreakdown("N/A (Dehradun ~₹3–5k)", "₹400–900", "₹500–1k", None)),
    ("manali", TravelBreakdown("N/A (Bhuntar ~₹5–8k)", "N/A", "₹1k–1.5k (overnight)", Some("Delhi–Manali bus ~12–14 hrs."))),
    ("shimla", TravelBreakdown("N/A", "₹400–1k (Kalka Shatabdi)", "₹600–1.2k", None)),
    ("mussoorie", TravelBreakdown("N/A (Dehradun ~₹3–5k)", "₹400–800", "₹500–900", None)),
    ("goa", TravelBreakdown("₹3k–8k", "₹1k–2.5k", "₹1k–2k", Some("Flight to Goa (Dabolim/Mopa)."))),
    ("pondicherry", TravelBreakdown("N/A (Chennai ~₹2–4k)", "₹500–1.2k", "₹400–800", Some("Chennai then 2–3 hr drive/bus."))),
    ("pondi", TravelBreakdown("N/A (Chennai ~₹2–4k)", "₹500–1.2k", "₹400–800", None)),
    ("kerala", TravelBreakdown("₹4k–10k (Kochi/Trivandrum)", "₹1k–3k", "₹1k–2k", None)),
    ("munnar", TravelBreakdown("N/A (Kochi ~₹4–8k)", "N/A", "₹300–600 from Kochi", None)),
    ("leh", TravelBreakdown("₹8k–15k", "N/A", "N/A", Some("Flights from Delhi; road only in season."))),
    ("ladakh", TravelBreakdown("₹8k–15k (Leh)", "N/A", "N/A", None)),
    ("darjeeling", TravelBreakdown("N/A (Bagdogra ~₹4–7k)", "₹600–1.5k", "₹800–1.5k", None)),
    ("gangtok", TravelBreakdown("N/A (Bagdogra ~₹4–7k)", "N/A", "₹600–1k", None)),
    ("udaipur", TravelBreakdown("₹4k–9k", "₹500–1.5k", "₹600–1.2k", None)),
    ("jaipur", TravelBreakdown("₹3k–7k", "₹400–1.2k", "₹500–1k", None)),
    ("default", TravelBreakdown("₹2k–6k (varies)", "₹400–1.5k", "₹400–1.2k", None))]

  const DefaultEstimate: TravelBreakdown := Estimates[16].1

  /** The lookup key: lower-cased, without whitespace, at most 20 characters. */
  function EstimateKey(destination: string): (key: string)
    ensures |key| <= 20
    ensures forall k | 0 <= k < |key| :: !IsSpace(key[k])
  {
    Prefix(RemoveSpaces(Lower(destination)), 20)
  }

  /** A destination written without whitespace is looked up by its first 20
      characters, lower-cased. */
  lemma EstimateKeyOfWord(destination: string)
    requires forall k | 0 <= k < |destination| :: !IsSpace(destination[k])
    ensures EstimateKey(destination) == Prefix(Lower(destination), 20)
  {
    var l := Lower(destination);
    assert forall k | 0 <= k < |l| :: !IsSpace(l[k]) by {
      forall k | 0 <= k < |l| ensures !IsSpace(l[k]) {
        assert l[k] == LowerChar(destination[k]);
      }
    }
    RemoveSpacesOfWord(l);
  }

  /** Whitespace inside the destination does not change its key: "new delhi" is
      looked up as "newdelhi". */
  lemma EstimateKeyIgnoresSpaces(a: string, gap: string, b: string)
    requires forall k | 0 <= k < |gap| :: IsSpace(gap[k])
    ensures EstimateKey(a + gap + b) == EstimateKey(a + b)
  {
    var la, lg, lb := Lower(a), Lower(gap), Lower(b);
    assert Lower(a + gap + b) == la + lg + lb;
    assert Lower(a + b) == la + lb;
    assert forall k | 0 <= k < |lg| :: lg[k] == gap[k];
    RemoveSpacesOfSpaces(lg);
    RemoveSpacesAppend(la + lg, lb);
    RemoveSpacesAppend(la, lg);
    RemoveSpacesAppend(la, lb);
    assert RemoveSpaces(la) + [] == RemoveSpaces(la);
  }

  /** `k !== "default" && (key.includes(k) || k.includes(key))`. */
  predicate Fits(key: string, name: string) {
    name != "default" && (Contains(key, name) || Contains(name, key))
  }

  function EstimateMatch(key: string): nat -> bool {
    (i: nat) => i < |Estimates| && Fits(key, Estimates[i].0)
  }

  /** `getTravelBreakdown`: the entry of the first name that fits the key, else the default entry. */
  function TravelBreakdownFor(destination: string): (r: TravelBreakdown)
    ensures r == DefaultEstimate || exists i | 0 <= i < |Estimates| :: r == Estimates[i].1
  {
    match FirstFrom(EstimateMatch(EstimateKey(destination)), 0, |Estimates|)
    case Some(i) => Estimates[i].1
    case None => DefaultEstimate
  }

  /** The entry chosen is that of the first fitting name in table order, and the
      default is chosen exactly when no name fits. */
  lemma TravelBreakdownFirstFit(destination: string)
    ensures var key := EstimateKey(destination);
      || (exists i | 0 <= i < |Estimates| ::
            && Fits(key, Estimates[i].0)
            && (forall j | 0 <= j < i :: !Fits(key, Estimates[j].0))
            && TravelBreakdownFor(destination) == Estimates[i].1)
      || ((forall j | 0 <= j < |Estimates| :: !Fits(key, Estimates[j].0))
            && TravelBreakdownFor(destination) == DefaultEstimate)
  {
    var key := EstimateKey(destination);
    var p := EstimateMatch(key);
    FirstFromLeftmost(p, 0, |Estimates|);
    match FirstFrom(p, 0, |Estimates|)
    case Some(i) =>
      assert p(i) && i < |Estimates|;
      assert forall j | 0 <= j < i :: !p(j);
      assert forall j | 0 <= j < i :: !Fits(key, Estimates[j].0) by {
        forall j | 0 <= j < i ensures !Fits(key, Estimates[j].0) { assert !p(j); }
      }
    case None =>
      assert !p(|Estimates|);
      forall j | 0 <= j < |Estimates| ensures !Fits(key, Estimates[j].0) { assert !p(j); }
  }

  // ---------------------------------------------------------------------
  // buildActivitiesForDay
  // ---------------------------------------------------------------------

  /** One row of a fixed template: everything an activity holds except that its
      map query is the destination followed by `querySuffix`. */
  datatype Stop = Stop(time: string, place: string, description: string, cost: string, querySuffix: string, photoSpot: Option<bool>)

  /** The template rows, with the destination spliced into each map query. */
  function Stops(dest: string, rows: seq<Stop>): (r: seq<Activity>)
    ensures |r| == |rows|
    ensures forall k | 0 <= k < |r| ::
      && r[k].mapQuery == dest + rows[k].querySuffix
      && StartsWithAt(r[k].mapQuery, 0, dest)
      && r[k].time == rows[k].time && r[k].place == rows[k].place
      && r[k].description == rows[k].description && r[k].cost == rows[k].cost
      && r[k].photoSpot == rows[k].photoSpot
  {
    seq(|rows|, k requires 0 <= k < |rows| =>
      assert (dest + rows[k].querySuffix)[..|dest|] == dest;
      Activity(rows[k].time, rows[k].place, rows[k].description, rows[k].cost, dest + rows[k].querySuffix, rows[k].photoSpot))
  }

  /** `buildActivitiesForDay`: the fixed template of the vibe, with the destination
      spliced in. Hill stations and the general vibe share a template. */
  function ActivitiesFor(dest: string, vibe: Vibe): (r: seq<Activity>)
    ensures |r| == if vibe == General || vibe == HillStation then 4 else 5
    ensures forall k | 0 <= k < |r| :: StartsWithAt(r[k].mapQuery, 0, dest)
  {
    match vibe
    case Religious => Stops(dest, ReligiousStops)
    case Mountain => Stops(dest, MountainStops)
    case Beach => Stops(dest, BeachStops)
    case City => Stops(dest, CityStops)
    case HillStation => GeneralDay(dest)
    case General => GeneralDay(dest)
  }

  /** Aarti at dawn, ghats, yoga, temples and a riverside sunset. */
  const ReligiousStops: seq<Stop> := [
    Stop("06:00", "Morning Ganga Aarti / Temple visit", "Start with sunrise aarti or temple darshan. Peaceful and photogenic.", "₹0", " ghat temple", Some(true)),
    Stop("09:30", "Breakfast near ghats", "Simple prasad or local breakfast with chai.", "₹100–200", " breakfast", None),
    Stop("11:00", "Ashram or yoga by the river", "Yoga/meditation session; many free or donation-based.", "₹0–300", " yoga ashram", Some(true)),
    Stop("14:00", "Local lunch + temple hopping", "Visit 1–2 more temples; try local bhojanalay.", "₹150–400", " temple", None),
    Stop("17:00", "Evening ghat walk / sunset", "Best time for photos and reels by the river.", "₹0", " ghat sunset", Some(true))]

  /** A trek, a viewpoint, a dhaba, the village market and a sunset point. */
  const MountainStops: seq<Stop> := [
    Stop("07:00", "Early breakfast + trek start", "Short trek or nature walk; carry water and layers.", "₹200–500", " trek", Some(true)),
    Stop("10:00", "Viewpoint / meadow", "Rest at a viewpoint; great for pictures.", "₹0", " viewpoint", Some(true)),
    Stop("13:00", "Lunch at dhaba / cafe", "Warm meal; try local chai and maggi.", "₹200–400", " dhaba", None),
    Stop("15:00", "Explore village / market", "Local market or short walk in town.", "₹0–300", " market", None),
    Stop("18:00", "Sunset point", "Golden hour photos; wrap up before dark.", "₹0", " sunset point", Some(true))]

  /** Sunrise on the beach, a beach cafe, water sports, lunch and a sunset walk. */
  const BeachStops: seq<Stop> := [
    Stop("06:30", "Sunrise on the beach", "Early morning beach walk; best light for photos.", "₹0", " beach", Some(true)),
    Stop("09:00", "Beachside breakfast / cafe", "Chill breakfast with sea view.", "₹300–600", " beach cafe", Some(true)),
    Stop("11:00", "Beach time / water sports", "Swim, surf, or just relax. Optional water sports extra.", "₹0–1k", " beach", None),
    Stop("14:00", "Lunch at shack or town", "Fresh seafood or local lunch.", "₹400–800", " lunch", None),
    Stop("17:00", "French Quarter / old town (if Pondy) or sunset beach", "Colonial streets or sunset by the sea—great for reels.", "₹0", " french quarter beach", Some(true))]

  /** Brunch, a landmark, local food, a market street and a rooftop. */
  const CityStops: seq<Stop> := [
    Stop("08:00", "Cafe / brunch spot", "Start with good coffee and breakfast.", "₹400–700", " cafe", None),
    Stop("10:30", "Landmark or museum", "One main attraction; book online if needed.", "₹0–500", " landmark", Some(true)),
    Stop("13:00", "Local lunch", "Famous local food or street food.", "₹200–500", " food", None),
    Stop("15:00", "Market / shopping street", "Souvenirs or just walk around.", "₹0–1k", " market", None),
    Stop("19:00", "Rooftop or waterfront", "Evening views; good for photos.", "₹500–1k", " rooftop", Some(true))]

  /** A morning spot, the main attraction, lunch and a viewpoint. */
  function GeneralDay(dest: string): (r: seq<Activity>)
    ensures |r| == 4
    ensures forall k | 0 <= k < |r| :: StartsWithAt(r[k].mapQuery, 0, dest)
  {
    [
      Activity("09:00", "Morning spot in " + dest, "Breakfast and a relaxed start.", "₹300–500", dest + " cafe", None),
      Activity("12:00", "Main attraction", "Explore a key place in " + dest + ".", "₹0–400", dest, Some(true)),
      Activity("14:00", "Lunch", "Local lunch.", "₹250–500", dest + " restaurant", None),
      Activity("17:00", "Viewpoint or walk", "Evening stroll; good for photos.", "₹0", dest + " viewpoint", Some(true))]
  }

  // ---------------------------------------------------------------------
  // generateTrip
  // ---------------------------------------------------------------------

  /** The per-vibe day title, numbered. */
  function DayTitle(vibe: Vibe, n: nat, dest: string): string {
    var day := "Day " + NatToString(n);
    match vibe
    case Religious => day + ": Temples, ghats & yoga in " + dest
    case Mountain => day + ": Treks & views in " + dest
    case Beach => day + ": Beaches & vibes in " + dest
    case City => day + ": Exploring " + dest
    case HillStation => day + ": Hills & cool air in " + dest
    case General => day + " in " + dest
  }

  /** `n` days numbered from 1, each with its title and the same activities. */
  function Itinerary(n: nat, vibe: Vibe, dest: string, activities: seq<Activity>): (days: seq<Day>)
    ensures |days| == n
    ensures forall i | 0 <= i < n :: days[i] == Day(i + 1, DayTitle(vibe, i + 1, dest), activities)
  {
    seq(n, i requires 0 <= i < n => Day(i + 1, DayTitle(vibe, i + 1, dest), activities))
  }

  /** The trip `generateTrip` assembles from what it read off the prompt. */
  function TripOf(id: string, now: string, prompt: string, n: nat, dest: string, budget: string, vibe: Vibe): (t: Trip)
    ensures t.id == id && t.createdAt == now && t.prompt == prompt && t.totalBudget == budget
    ensures t.tripTitle == NatToString(n) + "-day trip to " + dest
    ensures t.travelBreakdown == Some(TravelBreakdownFor(dest))
    ensures t.days == Itinerary(n, vibe, dest, ActivitiesFor(dest, vibe))
  {
    Trip(id, now, prompt, NatToString(n) + "-day trip to " + dest, budget,
      Some(TravelBreakdownFor(dest)), Itinerary(n, vibe, dest, ActivitiesFor(dest, vibe)))
  }

  /** `generateTrip`, with the uuid and the clock passed in. */
  function GenerateTrip(prompt: string, id: string, now: string): (t: Trip)
    ensures t.id == id && t.createdAt == now && t.prompt == prompt
    ensures 1 <= |t.days| <= 10
  {
    var lower := Lower(prompt);
    var dest := Destination(lower);
    TripOf(id, now, prompt, DayCount(lower), dest, TotalBudget(lower), DestinationVibe(dest, lower))
  }

  /** The trip has as many days as the prompt asks for (3 when it does not say,
      at most 10), numbered from 1, and its title says how many and where. */
  lemma GenerateTripDays(prompt: string, id: string, now: string)
    ensures var t := GenerateTrip(prompt, id, now);
      var dest := Destination(Lower(prompt));
      && |t.days| == DayCount(Lower(prompt))
      && t.tripTitle == NatToString(|t.days|) + "-day trip to " + dest
      && forall i | 0 <= i < |t.days| :: t.days[i].day == i + 1
  {
  }

  /** Every day runs the same activities, and every map query begins with the destination. */
  lemma GenerateTripActivities(prompt: string, id: string, now: string)
    ensures var t := GenerateTrip(prompt, id, now);
      var dest := Destination(Lower(prompt));
      && (forall i | 0 <= i < |t.days| :: t.days[i].activities == t.days[0].activities)
      && (|t.days[0].activities| == 4 || |t.days[0].activities| == 5)
      && forall a | a in t.days[0].activities :: StartsWithAt(a.mapQuery, 0, dest)
  {
  }

  /** The budget is the amount after "under" or "Flexible Budget", and the travel
      estimate is the table entry for the destination. */
  lemma GenerateTripCosts(prompt: string, id: string, now: string)
    ensures var t := GenerateTrip(prompt, id, now);
      && t.totalBudget == TotalBudget(Lower(prompt))
      && t.travelBreakdown == Some(TravelBreakdownFor(Destination(Lower(prompt))))
  {
  }
}
