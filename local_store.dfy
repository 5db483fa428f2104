/** The local trip store of lib/pagination.ts: one storage slot holding the
    serialised trip list, read back validated and sorted newest first, an
    upsert by id, and cursor pagination over the sorted list. */
module LocalStore {
  import opened TripTypes
  import opened Text

  /** The value found under one key of a parsed stored record. */
  datatype FieldValue = Absent | Str(s: string) | DayList(days: seq<Day>) | OtherValue

  /** One element of the parsed stored array. `NonRecord` is null, a boolean, a
      number or a string (an array is a `Record` whose keys are all `Absent`).
      The store checks neither `prompt` nor `travelBreakdown`; only entries
      whose `prompt` is a string, whose `travelBreakdown` is absent or an
      estimate, and whose `days` array holds days are represented as records,
      while an entry with any other value there is `OtherValue` or cannot be
      written at all. */
  datatype RawEntry =
    | NonRecord
    | Record(id: FieldValue, createdAt: FieldValue, tripTitle: FieldValue, totalBudget: FieldValue,
             days: FieldValue, prompt: string, travelBreakdown: Option<TravelBreakdown>)

  /** What the text in the slot parses to: `Unparsable` also stands for the empty string. */
  datatype Stored = Unparsable | NotAList | Entries(items: seq<RawEntry>)

  /** The runtime validation of a stored element. */
  predicate IsTripEntry(e: RawEntry) {
    && e.Record?
    && e.id.Str? && e.createdAt.Str? && e.tripTitle.Str? && e.totalBudget.Str?
    && e.days.DayList?
  }

  function Decode(e: RawEntry): Trip
    requires IsTripEntry(e)
  {
    Trip(e.id.s, e.createdAt.s, e.prompt, e.tripTitle.s, e.totalBudget.s, e.travelBreakdown, e.days.days)
  }

  /** A trip after `JSON.stringify` and `JSON.parse`: a record with every field in place. */
  function Encode(t: Trip): (e: RawEntry)
    ensures IsTripEntry(e) && Decode(e) == t
  {
    Record(Str(t.id), Str(t.createdAt), Str(t.tripTitle), Str(t.totalBudget), DayList(t.days), t.prompt, t.travelBreakdown)
  }

  function EncodeAll(ts: seq<Trip>): (es: seq<RawEntry>)
    ensures |es| == |ts| && forall i | 0 <= i < |ts| :: es[i] == Encode(ts[i])
  {
    seq(|ts|, i requires 0 <= i < |ts| => Encode(ts[i]))
  }

  /** The validation filter: the stored elements that are trips, in stored order. */
  function TripEntries(items: seq<RawEntry>): (r: seq<Trip>)
    ensures |r| <= |items|
  {
    if items == [] then []
    else (if IsTripEntry(items[0]) then [Decode(items[0])] else []) + TripEntries(items[1..])
  }

  /** The filter keeps exactly the elements that pass the validation. */
  lemma {:induction false} TripEntriesKeepsExactlyTrips(items: seq<RawEntry>, t: Trip)
    ensures t in TripEntries(items) <==> exists i | 0 <= i < |items| :: IsTripEntry(items[i]) && Decode(items[i]) == t
  {
    if items != [] {
      TripEntriesKeepsExactlyTrips(items[1..], t);
      if exists i | 0 <= i < |items| :: IsTripEntry(items[i]) && Decode(items[i]) == t {
        var i :| 0 <= i < |items| && IsTripEntry(items[i]) && Decode(items[i]) == t;
        if i > 0 { assert items[1..][i - 1] == items[i]; }
      }
      if exists i | 0 <= i < |items[1..]| :: IsTripEntry(items[1..][i]) && Decode(items[1..][i]) == t {
        var i :| 0 <= i < |items[1..]| && IsTripEntry(items[1..][i]) && Decode(items[1..][i]) == t;
        assert items[i + 1] == items[1..][i];
      }
    }
  }

  /** What the store writes, it reads back unchanged. */
  lemma {:induction false} TripEntriesOfEncoded(ts: seq<Trip>)
    ensures TripEntries(EncodeAll(ts)) == ts
  {
    if ts != [] {
      assert EncodeAll(ts)[1..] == EncodeAll(ts[1..]);
      TripEntriesOfEncoded(ts[1..]);
    }
  }

  // ---------------------------------------------------------------------------
  // Sorting newest first

  /** Non-increasing by `createdAt` in string order. */
  predicate Descending(ts: seq<Trip>) {
    forall i, j | 0 <= i < j < |ts| :: !StrLess(ts[i].createdAt, ts[j].createdAt)
  }

  /** The entries with timestamp `c`, in their order: a stable sort keeps these. */
  function WithCreatedAt(ts: seq<Trip>, c: string): seq<Trip> {
    if ts == [] then [] else (if ts[0].createdAt == c then [ts[0]] else []) + WithCreatedAt(ts[1..], c)
  }

  /** Puts `t` in front of the first entry of `r` that is not later than it. */
  function InsertByRecency(t: Trip, r: seq<Trip>): (s: seq<Trip>)
    ensures |s| == |r| + 1
  {
    if r == [] || !StrLess(t.createdAt, r[0].createdAt) then [t] + r
    else [r[0]] + InsertByRecency(t, r[1..])
  }

  /** The `sort` at lib/pagination.ts:35, as the stable insertion sort that it equals. */
  function SortByRecency(s: seq<Trip>): (r: seq<Trip>)
    ensures |r| == |s|
  {
    if s == [] then [] else InsertByRecency(s[0], SortByRecency(s[1..]))
  }

  lemma {:induction false} InsertPermutes(t: Trip, r: seq<Trip>)
    ensures multiset(InsertByRecency(t, r)) == multiset([t] + r)
  {
    if r != [] && StrLess(t.createdAt, r[0].createdAt) {
      InsertPermutes(t, r[1..]);
      assert r == [r[0]] + r[1..];
    }
  }

  /** The sort only reorders. */
  lemma {:induction false} SortPermutes(s: seq<Trip>)
    ensures multiset(SortByRecency(s)) == multiset(s)
  {
    if s != [] {
      SortPermutes(s[1..]);
      InsertPermutes(s[0], SortByRecency(s[1..]));
      assert s == [s[0]] + s[1..];
    }
  }

  /** An entry not later than any of a newest-first list can go in front of it. */
  lemma DescendingCons(x: Trip, r: seq<Trip>)
    requires Descending(r)
    requires forall k | 0 <= k < |r| :: !StrLess(x.createdAt, r[k].createdAt)
    ensures Descending([x] + r)
  {
    var s := [x] + r;
    forall i, j | 0 <= i < j < |s| ensures !StrLess(s[i].createdAt, s[j].createdAt) {
      assert s[j] == r[j - 1];
      if i > 0 { assert s[i] == r[i - 1]; }
    }
  }

  lemma {:induction false} InsertDescending(t: Trip, r: seq<Trip>)
    requires Descending(r)
    ensures Descending(InsertByRecency(t, r))
  {
    if r == [] {
    } else if !StrLess(t.createdAt, r[0].createdAt) {
      forall k | 0 <= k < |r| ensures !StrLess(t.createdAt, r[k].createdAt) {
        if k > 0 {
          NotLessTransitive(t.createdAt, r[0].createdAt, r[k].createdAt);
        }
      }
      DescendingCons(t, r);
    } else {
      var rest := InsertByRecency(t, r[1..]);
      assert Descending(r[1..]) by {
        forall i, j | 0 <= i < j < |r[1..]| ensures !StrLess(r[1..][i].createdAt, r[1..][j].createdAt) {
          assert r[1..][i] == r[i + 1] && r[1..][j] == r[j + 1];
        }
      }
      InsertDescending(t, r[1..]);
      InsertPermutes(t, r[1..]);
      forall k | 0 <= k < |rest| ensures !StrLess(r[0].createdAt, rest[k].createdAt) {
        assert rest[k] in multiset([t] + r[1..]);
        if rest[k] == t {
          StrLessAsymmetric(t.createdAt, r[0].createdAt);
        } else {
          assert rest[k] in r[1..];
        }
      }
      DescendingCons(r[0], rest);
    }
  }

  lemma {:induction false} SortDescending(s: seq<Trip>)
    ensures Descending(SortByRecency(s))
  {
    if s != [] {
      SortDescending(s[1..]);
      InsertDescending(s[0], SortByRecency(s[1..]));
    }
  }

  lemma {:induction false} InsertKeepsTies(t: Trip, r: seq<Trip>, c: string)
    ensures WithCreatedAt(InsertByRecency(t, r), c) == WithCreatedAt([t] + r, c)
  {
    if r != [] && StrLess(t.createdAt, r[0].createdAt) {
      InsertKeepsTies(t, r[1..], c);
      StrLessIrreflexive(t.createdAt);
      var s := InsertByRecency(t, r);
      assert s[1..] == InsertByRecency(t, r[1..]);
      assert ([t] + r)[1..] == r;
      assert ([t] + r[1..])[1..] == r[1..];
      assert r[1..] == r[1..];
    }
  }

  /** The sort is stable: entries with equal timestamps keep their stored order. */
  lemma {:induction false} SortKeepsTies(s: seq<Trip>, c: string)
    ensures WithCreatedAt(SortByRecency(s), c) == WithCreatedAt(s, c)
  {
    if s != [] {
      SortKeepsTies(s[1..], c);
      InsertKeepsTies(s[0], SortByRecency(s[1..]), c);
      assert ([s[0]] + SortByRecency(s[1..]))[1..] == SortByRecency(s[1..]);
    }
  }

  /** Sorting a list that is already newest first changes nothing. */
  lemma {:induction false} SortOfDescending(s: seq<Trip>)
    requires Descending(s)
    ensures SortByRecency(s) == s
  {
    if s != [] {
      assert Descending(s[1..]) by {
        forall i, j | 0 <= i < j < |s[1..]| ensures !StrLess(s[1..][i].createdAt, s[1..][j].createdAt) {
          assert s[1..][i] == s[i + 1] && s[1..][j] == s[j + 1];
        }
      }
      SortOfDescending(s[1..]);
      assert s == [s[0]] + s[1..];
      if |s| > 1 { assert s[1..][0] == s[1]; }
    }
  }

  lemma {:induction false} InsertCountId(t: Trip, r: seq<Trip>, id: string)
    ensures CountId(InsertByRecency(t, r), id) == CountId([t] + r, id)
  {
    if r != [] && StrLess(t.createdAt, r[0].createdAt) {
      InsertCountId(t, r[1..], id);
      assert InsertByRecency(t, r)[1..] == InsertByRecency(t, r[1..]);
      assert ([t] + r)[1..] == r;
      assert ([t] + r[1..])[1..] == r[1..];
    }
  }

  lemma {:induction false} SortCountId(s: seq<Trip>, id: string)
    ensures CountId(SortByRecency(s), id) == CountId(s, id)
  {
    if s != [] {
      SortCountId(s[1..], id);
      InsertCountId(s[0], SortByRecency(s[1..]), id);
      assert ([s[0]] + SortByRecency(s[1..]))[1..] == SortByRecency(s[1..]);
    }
  }

  // ---------------------------------------------------------------------------
  // Reading the slot

  /** `readAllTripsFromStorage`: empty outside a browser and for a missing,
      unparsable or non-array slot; otherwise the valid entries, newest first. */
  function ReadAllFrom(inBrowser: bool, slot: Option<Stored>): (r: seq<Trip>)
    ensures Descending(r)
    ensures !(inBrowser && slot.Some? && slot.value.Entries?) ==> r == []
    ensures inBrowser && slot.Some? && slot.value.Entries? ==>
              && multiset(r) == multiset(TripEntries(slot.value.items))
              && forall c :: WithCreatedAt(r, c) == WithCreatedAt(TripEntries(slot.value.items), c)
  {
    if inBrowser && slot.Some? && slot.value.Entries? then
      var r := SortByRecency(TripEntries(slot.value.items));
      SortDescending(TripEntries(slot.value.items));
      SortPermutes(TripEntries(slot.value.items));
      forall c ensures WithCreatedAt(r, c) == WithCreatedAt(TripEntries(slot.value.items), c) {
        SortKeepsTies(TripEntries(slot.value.items), c);
      }
      r
    else []
  }

  // ---------------------------------------------------------------------------
  // The upsert

  /** `existing.filter(t => t.id !== id)`. */
  function WithoutId(ts: seq<Trip>, id: string): (r: seq<Trip>)
    ensures CountId(r, id) == 0
    ensures |r| == |ts| - CountId(ts, id)
    ensures forall x :: x in r <==> x in ts && x.id != id
  {
    if ts == [] then []
    else if ts[0].id == id then WithoutId(ts[1..], id)
    else
      assert ts == [ts[0]] + ts[1..];
      [ts[0]] + WithoutId(ts[1..], id)
  }

  lemma {:induction false} WithoutIdDescending(ts: seq<Trip>, id: string)
    requires Descending(ts)
    ensures Descending(WithoutId(ts, id))
  {
    if ts != [] {
      assert Descending(ts[1..]) by {
        forall i, j | 0 <= i < j < |ts[1..]| ensures !StrLess(ts[1..][i].createdAt, ts[1..][j].createdAt) {
          assert ts[1..][i] == ts[i + 1] && ts[1..][j] == ts[j + 1];
        }
      }
      WithoutIdDescending(ts[1..], id);
      if ts[0].id != id {
        var rest := WithoutId(ts[1..], id);
        var s := [ts[0]] + rest;
        forall i, j | 0 <= i < j < |s| ensures !StrLess(s[i].createdAt, s[j].createdAt) {
          assert s[j] == rest[j - 1];
          if i > 0 {
            assert s[i] == rest[i - 1];
          } else {
            assert rest[j - 1] in ts[1..];
            var k :| 0 <= k < |ts[1..]| && ts[1..][k] == rest[j - 1];
            assert ts[k + 1] == rest[j - 1];
          }
        }
      }
    }
  }

  lemma {:induction false} WithoutAbsentId(ts: seq<Trip>, id: string)
    requires CountId(ts, id) == 0
    ensures WithoutId(ts, id) == ts
  {
    if ts != [] {
      WithoutAbsentId(ts[1..], id);
      assert ts == [ts[0]] + ts[1..];
    }
  }

  /** Removing `t`'s id after inserting `t` gives back the list it went into. */
  lemma {:induction false} WithoutIdOfInsert(t: Trip, r: seq<Trip>)
    requires CountId(r, t.id) == 0
    ensures WithoutId(InsertByRecency(t, r), t.id) == r
  {
    if r == [] || !StrLess(t.createdAt, r[0].createdAt) {
      assert ([t] + r)[1..] == r;
      WithoutAbsentId(r, t.id);
    } else {
      WithoutIdOfInsert(t, r[1..]);
      var s := InsertByRecency(t, r);
      assert s[1..] == InsertByRecency(t, r[1..]);
      assert r == [r[0]] + r[1..];
    }
  }

  /** The slot after `persistTripToStorage(t)`: outside a browser unchanged; otherwise
      `t` followed by every other trip read back, and nothing else. */
  function AfterPersist(inBrowser: bool, slot: Option<Stored>, t: Trip): Option<Stored> {
    if !inBrowser then slot
    else Some(Entries(EncodeAll([t] + WithoutId(ReadAllFrom(inBrowser, slot), t.id))))
  }

  lemma ReadAfterPersist(slot: Option<Stored>, t: Trip)
    ensures ReadAllFrom(true, AfterPersist(true, slot, t)) == InsertByRecency(t, WithoutId(ReadAllFrom(true, slot), t.id))
  {
    var w := WithoutId(ReadAllFrom(true, slot), t.id);
    TripEntriesOfEncoded([t] + w);
    assert ([t] + w)[1..] == w;
    WithoutIdDescending(ReadAllFrom(true, slot), t.id);
    SortOfDescending(w);
  }

  /** After a persist the slot holds exactly one entry with `t`'s id, and that is `t`;
      the other trips are the ones stored before, in the same order. */
  lemma PersistStoresTripOnce(slot: Option<Stored>, t: Trip)
    ensures var after := ReadAllFrom(true, AfterPersist(true, slot, t));
            && t in after
            && CountId(after, t.id) == 1
            && (forall x | x in after && x.id == t.id :: x == t)
            && WithoutId(after, t.id) == WithoutId(ReadAllFrom(true, slot), t.id)
  {
    var w := WithoutId(ReadAllFrom(true, slot), t.id);
    var after := ReadAllFrom(true, AfterPersist(true, slot, t));
    ReadAfterPersist(slot, t);
    InsertCountId(t, w, t.id);
    assert ([t] + w)[1..] == w;
    InsertPermutes(t, w);
    assert t in multiset(after);
    WithoutIdOfInsert(t, w);
    forall x | x in after && x.id == t.id ensures x == t {
      assert x in multiset([t] + w);
    }
  }

  /** Persisting the same trip twice leaves the slot as persisting it once. */
  lemma PersistIdempotent(inBrowser: bool, slot: Option<Stored>, t: Trip)
    ensures AfterPersist(inBrowser, AfterPersist(inBrowser, slot, t), t) == AfterPersist(inBrowser, slot, t)
  {
    if inBrowser {
      var w := WithoutId(ReadAllFrom(true, slot), t.id);
      ReadAfterPersist(slot, t);
      WithoutIdOfInsert(t, w);
    }
  }

  // ---------------------------------------------------------------------------
  // Cursor pagination

  datatype Page = Page(trips: seq<Trip>, nextCursor: Option<string>)

  /** `findIndex(t => t.createdAt === c)`. */
  function IndexOfCreatedAt(ts: seq<Trip>, c: string): (r: int)
    ensures -1 <= r < |ts|
  {
    if |ts| == 0 then -1
    else if ts[0].createdAt == c then 0
    else
      var k := IndexOfCreatedAt(ts[1..], c);
      if k < 0 then -1 else k + 1
  }

  /** The result is the first index with timestamp `c`, or -1 when there is none. */
  lemma {:induction false} IndexOfCreatedAtFirst(ts: seq<Trip>, c: string)
    ensures var r := IndexOfCreatedAt(ts, c);
      && (r == -1 <==> forall i | 0 <= i < |ts| :: ts[i].createdAt != c)
      && (r >= 0 ==> ts[r].createdAt == c && forall i | 0 <= i < r :: ts[i].createdAt != c)
  {
    if |ts| > 0 && ts[0].createdAt != c {
      IndexOfCreatedAtFirst(ts[1..], c);
      assert forall i | 1 <= i < |ts| :: ts[i] == ts[1..][i - 1];
    }
  }

  /** `findIndex(t => t.createdAt < c)`. */
  function IndexOfOlder(ts: seq<Trip>, c: string): (r: int)
    ensures -1 <= r < |ts|
  {
    if |ts| == 0 then -1
    else if StrLess(ts[0].createdAt, c) then 0
    else
      var k := IndexOfOlder(ts[1..], c);
      if k < 0 then -1 else k + 1
  }

  /** The result is the first index of an entry older than `c`, or -1 if there is none. */
  lemma {:induction false} IndexOfOlderFirst(ts: seq<Trip>, c: string)
    ensures var r := IndexOfOlder(ts, c);
      && (r == -1 <==> forall i | 0 <= i < |ts| :: !StrLess(ts[i].createdAt, c))
      && (r >= 0 ==> StrLess(ts[r].createdAt, c) && forall i | 0 <= i < r :: !StrLess(ts[i].createdAt, c))
  {
    if |ts| > 0 && !StrLess(ts[0].createdAt, c) {
      IndexOfOlderFirst(ts[1..], c);
      assert forall i | 1 <= i < |ts| :: ts[i] == ts[1..][i - 1];
    }
  }

  /** A bound of `Array.prototype.slice`: negative counts from the end, then clamped to [0, n]. */
  function SliceBound(x: int, n: nat): (b: nat)
    ensures b <= n
    ensures 0 <= x <= n ==> b == x
  {
    if x < 0 then (if n + x < 0 then 0 else n + x) else if x < n then x else n
  }

  /** `ts.slice(from, to)`. */
  function JsSlice<T>(ts: seq<T>, from: int, to: int): seq<T> {
    var lo := SliceBound(from, |ts|);
    var hi := SliceBound(to, |ts|);
    if lo < hi then ts[lo..hi] else []
  }

  /** Where the page starts (lib/pagination.ts:76-90); None is the early return
      for a cursor that matches nothing and has nothing older. */
  function StartIndex(all: seq<Trip>, cursor: Option<string>): (r: Option<nat>)
    ensures r.Some? ==> r.value <= |all|
  {
    if !Truthy(cursor) then Some(0)
    else
      var ci := IndexOfCreatedAt(all, cursor.value);
      if ci >= 0 then Some(ci + 1)
      else
        var oi := IndexOfOlder(all, cursor.value);
        if oi >= 0 then Some(oi) else None
  }

  /** No cursor starts at 0; a cursor equal to some timestamp starts just after its
      first occurrence; any other cursor starts at the first older entry, and gives
      no start exactly when there is none. */
  lemma StartIndexCases(all: seq<Trip>, cursor: Option<string>)
    ensures var r := StartIndex(all, cursor);
      && (!Truthy(cursor) ==> r == Some(0))
      && (Truthy(cursor) && (exists i | 0 <= i < |all| :: all[i].createdAt == cursor.value) ==>
            && r.Some? && 1 <= r.value
            && all[r.value - 1].createdAt == cursor.value
            && forall i | 0 <= i < r.value - 1 :: all[i].createdAt != cursor.value)
      && (Truthy(cursor) && (forall i | 0 <= i < |all| :: all[i].createdAt != cursor.value) ==>
            && (r.None? <==> forall i | 0 <= i < |all| :: !StrLess(all[i].createdAt, cursor.value))
            && (r.Some? ==> r.value < |all| && StrLess(all[r.value].createdAt, cursor.value)
                            && forall i | 0 <= i < r.value :: !StrLess(all[i].createdAt, cursor.value)))
  {
    if Truthy(cursor) {
      IndexOfCreatedAtFirst(all, cursor.value);
      IndexOfOlderFirst(all, cursor.value);
    }
  }

  /** The page from `start` on (lib/pagination.ts:92-104): `limit` items, and the
      timestamp of the last one as the cursor unless that item is the last stored. */
  function PageFrom(all: seq<Trip>, start: nat, limit: int): Page {
    var page := JsSlice(all, start, start + limit);
    if |page| == 0 then Page([], None)
    else
      var last := page[|page| - 1];
      var lastIndex := IndexOfId(all, last.id);
      Page(page, if lastIndex < |all| - 1 then Some(last.createdAt) else None)
  }

  /** `getTrips(cursor, limit)` over the sorted snapshot `all`. */
  function Paginate(all: seq<Trip>, cursor: Option<string>, limit: int): Page {
    if |all| == 0 then Page([], None)
    else
      match StartIndex(all, cursor)
      case None => Page([], None)
      case Some(start) => PageFrom(all, start, limit)
  }

  /** An empty store or an empty page gives no cursor; a page is at most `limit`
      long and is the run of `all` from the start index on; the cursor is null
      exactly when the last item of the page (found by its id) is the last stored
      trip, and otherwise is that item's timestamp. */
  lemma PaginateShape(all: seq<Trip>, cursor: Option<string>, limit: int)
    ensures var r := Paginate(all, cursor, limit);
      && (all == [] ==> r == Page([], None))
      && (r.trips == [] ==> r.nextCursor == None)
      && (limit >= 0 ==> |r.trips| <= limit)
      && (r.trips != [] ==>
            && StartIndex(all, cursor).Some?
            && var s := StartIndex(all, cursor).value;
            && s + |r.trips| <= |all|
            && r.trips == all[s..s + |r.trips|])
      && (r.trips != [] ==>
            var last := r.trips[|r.trips| - 1];
            && (r.nextCursor.None? <==> IndexOfId(all, last.id) == |all| - 1)
            && (r.nextCursor.Some? ==> r.nextCursor.value == last.createdAt))
  {
    var r := Paginate(all, cursor, limit);
    if r.trips != [] {
      var s := StartIndex(all, cursor).value;
      var last := r.trips[|r.trips| - 1];
      assert last in all;
    }
  }

  predicate DistinctCreatedAt(ts: seq<Trip>) {
    forall i, j | 0 <= i < j < |ts| :: ts[i].createdAt != ts[j].createdAt
  }

  /** Fetches pages from `cursor` on, each time passing the `nextCursor` of the
      page before, for at most `fuel` calls; None if the calls run out first. */
  function Drain(all: seq<Trip>, cursor: Option<string>, limit: int, fuel: nat): Option<seq<Trip>>
    decreases fuel
  {
    if fuel == 0 then None
    else
      var p := Paginate(all, cursor, limit);
      if p.nextCursor.None? then Some(p.trips)
      else
        match Drain(all, p.nextCursor, limit, fuel - 1)
        case None => None
        case Some(rest) => Some(p.trips + rest)
  }

  /** The cursor a caller holds after having been served `all[..s]`. */
  function CursorBefore(all: seq<Trip>, s: nat): Option<string>
    requires s <= |all|
  {
    if s == 0 then None else Some(all[s - 1].createdAt)
  }

  lemma StartAfterServed(all: seq<Trip>, s: nat)
    requires DistinctCreatedAt(all)
    requires forall i | 0 <= i < |all| :: all[i].createdAt != ""
    requires s <= |all|
    ensures StartIndex(all, CursorBefore(all, s)) == Some(s)
  {
    if s > 0 {
      var c := all[s - 1].createdAt;
      IndexOfCreatedAtFirst(all, c);
      assert IndexOfCreatedAt(all, c) == s - 1;
    }
  }

  lemma IndexOfDistinctId(all: seq<Trip>, k: nat)
    requires DistinctIds(all) && k < |all|
    ensures IndexOfId(all, all[k].id) == k
  {
    IndexOfIdFirst(all, all[k].id);
  }

  /** From a start in range, `slice(start, start + limit)` is the next `limit`
      items, or all that remain, and ends with the item before the end bound. */
  lemma JsSliceFrom<T>(a: seq<T>, s: nat, limit: int)
    requires limit >= 1 && s < |a|
    ensures s + limit < |a| ==>
              && JsSlice(a, s, s + limit) == a[s..s + limit]
              && JsSlice(a, s, s + limit)[limit - 1] == a[s + limit - 1]
    ensures |a| <= s + limit ==>
              && JsSlice(a, s, s + limit) == a[s..]
              && JsSlice(a, s, s + limit)[|a| - s - 1] == a[|a| - 1]
  {
  }

  /** A page that stops short of the end, whose last item is the first with its id
      (as with distinct ids), carries that item's timestamp as cursor ... */
  lemma PageFromMore(all: seq<Trip>, s: nat, limit: int)
    requires limit >= 1 && s + limit < |all|
    requires IndexOfId(all, all[s + limit - 1].id) == s + limit - 1
    ensures PageFrom(all, s, limit).trips == all[s..s + limit]
    ensures PageFrom(all, s, limit).nextCursor == Some(all[s + limit - 1].createdAt)
  {
    JsSliceFrom(all, s, limit);
    var page := JsSlice(all, s, s + limit);
    assert |page| == limit;
    assert page[|page| - 1] == all[s + limit - 1];
  }

  /** ... and a page that reaches the end carries none. */
  lemma PageFromLast(all: seq<Trip>, s: nat, limit: int)
    requires limit >= 1 && s < |all| <= s + limit
    requires IndexOfId(all, all[|all| - 1].id) == |all| - 1
    ensures PageFrom(all, s, limit).trips == all[s..]
    ensures PageFrom(all, s, limit).nextCursor == None
  {
    JsSliceFrom(all, s, limit);
    var page := JsSlice(all, s, s + limit);
    assert |page| == |all| - s;
    assert page[|page| - 1] == all[|all| - 1];
  }

  /** Ids and timestamps are unique and no timestamp is empty. */
  predicate Walkable(all: seq<Trip>) {
    && DistinctIds(all) && DistinctCreatedAt(all)
    && forall i | 0 <= i < |all| :: all[i].createdAt != ""
  }

  /** With distinct ids and timestamps, the cursor left after serving `all[..s]`
      makes the next call serve the next `limit` items and return as cursor the
      timestamp of the last of them, while items remain after them ... */
  lemma PageAfterServedMore(all: seq<Trip>, s: nat, limit: int)
    requires Walkable(all)
    requires limit >= 1 && s + limit < |all|
    ensures Paginate(all, CursorBefore(all, s), limit).trips == all[s..s + limit]
    ensures Paginate(all, CursorBefore(all, s), limit).nextCursor == Some(all[s + limit - 1].createdAt)
  {
    StartAfterServed(all, s);
    IndexOfDistinctId(all, s + limit - 1);
    PageFromMore(all, s, limit);
  }

  /** ... and serve the rest with a null cursor once they fit in one page. */
  lemma PageAfterServedLast(all: seq<Trip>, s: nat, limit: int)
    requires Walkable(all)
    requires limit >= 1 && s < |all| <= s + limit
    ensures Paginate(all, CursorBefore(all, s), limit).trips == all[s..]
    ensures Paginate(all, CursorBefore(all, s), limit).nextCursor == None
  {
    StartAfterServed(all, s);
    IndexOfDistinctId(all, |all| - 1);
    PageFromLast(all, s, limit);
  }

  lemma SliceSplit(all: seq<Trip>, s: nat, e: nat)
    requires s <= e <= |all|
    ensures all[s..] == all[s..e] + all[e..]
  {
  }

  /** `fuel` calls of `limit` items each serve `remaining` items. */
  predicate EnoughCalls(fuel: nat, limit: int, remaining: int)
    decreases fuel
  {
    fuel >= 1 && (remaining <= limit || EnoughCalls(fuel - 1, limit, remaining - limit))
  }

  lemma {:induction false} EnoughCallsOfProduct(fuel: nat, limit: int, remaining: int)
    requires fuel >= 1 && limit >= 1 && fuel * limit >= remaining
    ensures EnoughCalls(fuel, limit, remaining)
  {
    if remaining > limit {
      assert (fuel - 1) * limit == fuel * limit - limit;
      EnoughCallsOfProduct(fuel - 1, limit, remaining - limit);
    }
  }

  lemma EnoughCallsNext(fuel: nat, limit: int, remaining: int)
    requires EnoughCalls(fuel, limit, remaining) && remaining > limit
    ensures fuel >= 1 && EnoughCalls(fuel - 1, limit, remaining - limit)
  {
  }

  /** One call whose page comes with a cursor, followed by the calls after it. */
  lemma DrainStepMore(all: seq<Trip>, c: Option<string>, limit: int, fuel: nat, page: seq<Trip>, next: string)
    requires fuel >= 1
    requires Paginate(all, c, limit).trips == page && Paginate(all, c, limit).nextCursor == Some(next)
    ensures Drain(all, c, limit, fuel)
              == match Drain(all, Some(next), limit, fuel - 1)
                 case None => None
                 case Some(rest) => Some(page + rest)
  {
  }

  /** A call whose page comes without a cursor ends the walk. */
  lemma DrainStepLast(all: seq<Trip>, c: Option<string>, limit: int, fuel: nat, page: seq<Trip>)
    requires fuel >= 1
    requires Paginate(all, c, limit).trips == page && Paginate(all, c, limit).nextCursor == None
    ensures Drain(all, c, limit, fuel) == Some(page)
  {
  }

  /** A page `all[s..e]` with cursor `next`, followed by calls from `next` that
      serve the rest, serves `all[s..]`. */
  lemma DrainJoin(all: seq<Trip>, s: nat, e: nat, limit: int, fuel: nat, next: string)
    requires s <= e <= |all| && fuel >= 1
    requires Paginate(all, CursorBefore(all, s), limit).trips == all[s..e]
    requires Paginate(all, CursorBefore(all, s), limit).nextCursor == Some(next)
    requires Drain(all, Some(next), limit, fuel - 1) == Some(all[e..])
    ensures Drain(all, CursorBefore(all, s), limit, fuel) == Some(all[s..])
  {
    DrainStepMore(all, CursorBefore(all, s), limit, fuel, all[s..e], next);
    SliceSplit(all, s, e);
  }

  lemma {:induction false} DrainFrom(all: seq<Trip>, s: nat, limit: int, fuel: nat)
    requires Walkable(all)
    requires limit >= 1
    requires s == 0 || s < |all|
    requires EnoughCalls(fuel, limit, |all| - s)
    ensures Drain(all, CursorBefore(all, s), limit, fuel) == Some(all[s..])
    decreases fuel, 1
  {
    if all == [] {
      assert Drain(all, None, limit, fuel) == Some([]);
    } else if s + limit < |all| {
      DrainFromMore(all, s, limit, fuel);
    } else {
      PageAfterServedLast(all, s, limit);
      DrainStepLast(all, CursorBefore(all, s), limit, fuel, all[s..]);
    }
  }

  lemma {:induction false} DrainFromMore(all: seq<Trip>, s: nat, limit: int, fuel: nat)
    requires Walkable(all)
    requires limit >= 1
    requires s + limit < |all|
    requires EnoughCalls(fuel, limit, |all| - s)
    ensures Drain(all, CursorBefore(all, s), limit, fuel) == Some(all[s..])
    decreases fuel, 0
  {
    var e := s + limit;
    var next := all[e - 1].createdAt;
    var c := CursorBefore(all, s);
    assert CursorBefore(all, e) == Some(next);
    EnoughCallsNext(fuel, limit, |all| - s);
    DrainFrom(all, e, limit, fuel - 1);
    assert Drain(all, Some(next), limit, fuel - 1) == Some(all[e..]);
    PageAfterServedMore(all, s, limit);
    DrainJoin(all, s, e, limit, fuel, next);
  }

  /** Starting without a cursor and passing each page's `nextCursor` to the next call
      serves every trip exactly once, in the stored (newest-first) order, and the
      walk ends with a null cursor after the page count `fuel` that covers the list. */
  lemma WalkVisitsEveryTripOnce(all: seq<Trip>, limit: int, fuel: nat)
    requires DistinctIds(all) && DistinctCreatedAt(all)
    requires forall i | 0 <= i < |all| :: all[i].createdAt != ""
    requires limit >= 1 && fuel >= 1 && fuel * limit >= |all|
    ensures Drain(all, None, limit, fuel) == Some(all)
  {
    EnoughCallsOfProduct(fuel, limit, |all|);
    DrainFrom(all, 0, limit, fuel);
  }

  /** With two trips sharing a timestamp at a page boundary, the cursor restarts
      after the first of them, so the second is served twice. */
  lemma TiedTimestampRepeats(a: Trip, b: Trip, d: Trip)
    requires a.createdAt == "2" && b.createdAt == "2" && d.createdAt == "1"
    requires a.id != b.id && a.id != d.id && b.id != d.id
    ensures Paginate([a, b, d], None, 2) == Page([a, b], Some("2"))
    ensures Paginate([a, b, d], Some("2"), 2) == Page([b, d], None)
    ensures Drain([a, b, d], None, 2, 2) == Some([a, b, b, d])
  {
    var all := [a, b, d];
    assert IndexOfCreatedAt(all, "2") == 0;
    assert JsSlice(all, 0, 2) == [a, b];
    assert JsSlice(all, 1, 3) == [b, d];
    assert all[1..] == [b, d] && all[1..][1..] == [d];
    assert IndexOfId(all, b.id) == 1;
    assert IndexOfId([d], d.id) == 0;
    assert IndexOfId(all, d.id) == 2;
    DrainStepLast(all, Some("2"), 2, 1, [b, d]);
    DrainStepMore(all, None, 2, 2, [a, b], "2");
    assert [a, b] + [b, d] == [a, b, b, d];
  }

  // ---------------------------------------------------------------------------
  // The storage object

  /** The one storage slot under the key "travelplanner_trips", and whether a
      browser's `localStorage` is present at all (`isBrowser`). */
  class TripStorage {
    const inBrowser: bool
    var slot: Option<Stored>

    constructor (inBrowser: bool, slot: Option<Stored>)
      ensures this.inBrowser == inBrowser && this.slot == slot
    {
      this.inBrowser := inBrowser;
      this.slot := slot;
    }

    function ReadAll(): (r: seq<Trip>)
      reads this
      ensures Descending(r)
    {
      ReadAllFrom(inBrowser, slot)
    }

    /** `persistTripToStorage`. */
    method Persist(t: Trip)
      modifies this
      ensures slot == AfterPersist(inBrowser, old(slot), t)
      ensures inBrowser ==> t in ReadAll() && CountId(ReadAll(), t.id) == 1
    {
      if !inBrowser {
        return;
      }
      var existing := ReadAll();
      var withoutDuplicate := WithoutId(existing, t.id);
      var updated := [t] + withoutDuplicate;
      slot := Some(Entries(EncodeAll(updated)));
      PersistStoresTripOnce(old(slot), t);
    }

    /** `getTrips`. */
    method GetTrips(cursor: Option<string>, limit: int) returns (r: Page)
      ensures r == Paginate(ReadAll(), cursor, limit)
    {
      if !inBrowser {
        return Page([], None);
      }
      var allTrips := ReadAll();
      if |allTrips| == 0 {
        return Page([], None);
      }
      var startIndex := 0;
      if Truthy(cursor) {
        var cursorIndex := IndexOfCreatedAt(allTrips, cursor.value);
        if cursorIndex >= 0 {
          startIndex := cursorIndex + 1;
        } else {
          startIndex := IndexOfOlder(allTrips, cursor.value);
          if startIndex < 0 {
            return Page([], None);
          }
        }
      }
      assert StartIndex(allTrips, cursor) == Some(startIndex);
      r := PageFrom(allTrips, startIndex, limit);
    }

    /** `getLatestTrip`: the newest stored trip, or none when nothing is stored. */
    function LatestTrip(): (r: Option<Trip>)
      reads this
      ensures r.None? <==> ReadAll() == []
      ensures r.Some? ==> r.value == ReadAll()[0]
      ensures r.Some? ==> r.value in ReadAll() && forall t | t in ReadAll() :: !StrLess(r.value.createdAt, t.createdAt)
    {
      var all := ReadAll();
      if |all| > 0 then
        assert forall t | t in all :: !StrLess(all[0].createdAt, t.createdAt) by {
          forall t | t in all ensures !StrLess(all[0].createdAt, t.createdAt) {
            var k :| 0 <= k < |all| && all[k] == t;
            if k == 0 { StrLessIrreflexive(t.createdAt); }
          }
        }
        Some(all[0])
      else None
    }
  }
}
