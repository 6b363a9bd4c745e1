/** Saving an entry (save_entry_to_database, in memory): the final record
    with its defaults and without absent values, and the upsert into the
    database's entry list keyed by city, state and campground name. */
module Store {
  import opened Wrappers
  import opened Heading
  import opened Attribution
  import opened Extractor

  /** A JSON value of a stored record. Null only occurs in records loaded
      from an existing database; saved records never hold it. */
  datatype Value = Str(s: string) | Num(x: real) | Obj(named: Named) | Objs(list: seq<Named>) | Null

  /** A record: its keys in insertion order, each once. */
  type Record = seq<(string, Value)>

  /** The result of the Places lookup: `{'error': …}` or the first place. */
  datatype Coordinates =
    | Failed(error: string)
    | Found(placeId: Option<string>, displayName: Option<string>, formattedAddress: Option<string>,
            latitude: Option<real>, longitude: Option<real>)

  /** `r.get(k)`: the value under the first pair with key k. */
  function Lookup(r: Record, k: string): Option<Value>
    decreases |r|
  {
    if r == [] then None else if r[0].0 == k then Some(r[0].1) else Lookup(r[1..], k)
  }

  // ---------------------------------------------------------------------
  // The final record

  /** The keys of the final record, in the order they are written. */
  const RecordKeys: seq<string> := [
    "city", "state", "hookup_type", "campground", "cg_notes", "trail", "trails", "trail_notes",
    "directions", "other", "blog_post", "blog_post_link", "contributor", "contributor_blog",
    "contributor_blog_link", "latitude", "longitude", "placeId"]

  function StrOf(o: Option<string>): Option<Value> {
    if o.Some? then Some(Str(o.value)) else None
  }

  function NumOf(o: Option<real>): Option<Value> {
    if o.Some? then Some(Num(o.value)) else None
  }

  function ObjOf(o: Option<Named>): Option<Value> {
    if o.Some? then Some(Obj(o.value)) else None
  }

  /** The place found, when the lookup found one. */
  function PlaceOf(coords: Option<Coordinates>): Option<Coordinates> {
    if coords.Some? && coords.value.Found? then coords else None
  }

  /** The draft record, with None for every value the entry or the
      coordinates do not have; `hookup_type` defaults to "full". */
  function Draft(entry: Entry, coords: Option<Coordinates>): (d: seq<(string, Option<Value>)>)
    ensures |d| == |RecordKeys| && forall i :: 0 <= i < |d| ==> d[i].0 == RecordKeys[i]
  {
    var place := PlaceOf(coords);
    [ ("city", if entry.location.Some? then Some(Str(entry.location.value.city)) else None),
      ("state", if entry.location.Some? then Some(Str(entry.location.value.state)) else None),
      ("hookup_type", Some(Str(if entry.hookupType.Some? then entry.hookupType.value else "full"))),
      ("campground", ObjOf(entry.campground)),
      ("cg_notes", StrOf(entry.cgNotes)),
      ("trail", ObjOf(entry.trail)),
      ("trails", if entry.trails.Some? then Some(Objs(entry.trails.value)) else None),
      ("trail_notes", StrOf(entry.trailNotes)),
      ("directions", StrOf(entry.directions)),
      ("other", StrOf(entry.other)),
      ("blog_post", StrOf(entry.blogPost)),
      ("blog_post_link", StrOf(entry.blogPostLink)),
      ("contributor", StrOf(entry.contributor)),
      ("contributor_blog", StrOf(entry.contributorBlog)),
      ("contributor_blog_link", StrOf(entry.contributorBlogLink)),
      ("latitude", if place.Some? then NumOf(place.value.latitude) else None),
      ("longitude", if place.Some? then NumOf(place.value.longitude) else None),
      ("placeId", if place.Some? then StrOf(place.value.placeId) else None) ]
  }

  /** `{k: v for k, v in d.items() if v is not None}` */
  function Prune(d: seq<(string, Option<Value>)>): (r: Record)
    ensures |r| <= |d|
    decreases |d|
  {
    if d == [] then []
    else (if d[0].1.Some? then [(d[0].0, d[0].1.value)] else []) + Prune(d[1..])
  }

  /** The value a draft holds under k, absent or not. */
  function DraftGet(d: seq<(string, Option<Value>)>, k: string): Option<Value>
    decreases |d|
  {
    if d == [] then None else if d[0].0 == k then d[0].1 else DraftGet(d[1..], k)
  }

  predicate DistinctKeys(d: seq<(string, Option<Value>)>) {
    forall i, j :: 0 <= i < j < |d| ==> d[i].0 != d[j].0
  }

  /** k is not a key of the draft. */
  lemma {:induction false} DraftGetMissing(d: seq<(string, Option<Value>)>, k: string)
    requires forall i :: 0 <= i < |d| ==> d[i].0 != k
    ensures DraftGet(d, k).None? && Lookup(Prune(d), k).None?
    decreases |d|
  {
    if d != [] {
      var rest := d[1..];
      assert forall i :: 0 <= i < |rest| ==> rest[i] == d[i + 1];
      DraftGetMissing(rest, k);
      var head := if d[0].1.Some? then [(d[0].0, d[0].1.value)] else [];
      assert Prune(d) == head + Prune(rest);
      if head != [] {
        assert (head + Prune(rest))[1..] == Prune(rest);
      } else {
        assert head + Prune(rest) == Prune(rest);
      }
    }
  }

  /** Pruning keeps every present value under its key and drops every
      absent one: the pruned record holds k exactly when the draft has a
      value for it. */
  lemma {:induction false} PruneLookup(d: seq<(string, Option<Value>)>, k: string)
    requires DistinctKeys(d)
    ensures Lookup(Prune(d), k) == DraftGet(d, k)
    decreases |d|
  {
    if d != [] {
      var rest := d[1..];
      assert DistinctKeys(rest) by {
        forall i, j | 0 <= i < j < |rest| ensures rest[i].0 != rest[j].0 {
          assert rest[i] == d[i + 1] && rest[j] == d[j + 1];
        }
      }
      var head := if d[0].1.Some? then [(d[0].0, d[0].1.value)] else [];
      assert Prune(d) == head + Prune(rest);
      if d[0].0 == k {
        forall i | 0 <= i < |rest| ensures rest[i].0 != k {
          assert rest[i] == d[i + 1];
        }
        DraftGetMissing(rest, k);
        if head == [] {
          assert head + Prune(rest) == Prune(rest);
        }
      } else {
        PruneLookup(rest, k);
        assert head == [] || head[0].0 != k;
        assert Lookup(head + Prune(rest), k) == Lookup(Prune(rest), k) by {
          if head != [] {
            assert (head + Prune(rest))[1..] == Prune(rest);
          } else {
            assert head + Prune(rest) == Prune(rest);
          }
        }
      }
    }
  }

  /** In a draft with distinct keys, the value under the i-th key is the
      i-th value. */
  lemma {:induction false} DraftGetAt(d: seq<(string, Option<Value>)>, i: nat)
    requires DistinctKeys(d) && i < |d|
    ensures DraftGet(d, d[i].0) == d[i].1
    decreases i
  {
    if i > 0 {
      var rest := d[1..];
      assert DistinctKeys(rest) by {
        forall a, b | 0 <= a < b < |rest| ensures rest[a].0 != rest[b].0 {
          assert rest[a] == d[a + 1] && rest[b] == d[b + 1];
        }
      }
      assert rest[i - 1] == d[i];
      DraftGetAt(rest, i - 1);
    }
  }

  lemma {:induction false} RecordKeysDistinct(d: seq<(string, Option<Value>)>)
    requires |d| == |RecordKeys| && forall i :: 0 <= i < |d| ==> d[i].0 == RecordKeys[i]
    ensures DistinctKeys(d)
  {
    forall i, j | 0 <= i < j < |d| ensures d[i].0 != d[j].0 {
      assert RecordKeys[i] != RecordKeys[j];
    }
  }

  /** The record saved for an entry and its coordinates. */
  function FinalRecord(entry: Entry, coords: Option<Coordinates>): Record {
    Prune(Draft(entry, coords))
  }

  /** The saved record holds a key exactly when the entry or coordinates
      give it a value, and then that value: city and state come from the
      entry's heading, `hookup_type` is always there and defaults to
      "full", the eleven text, trail and link fields are the entry's own,
      and latitude, longitude and place id are there only when the lookup
      found a place that has them. */
  lemma {:induction false} FinalRecordKeys(entry: Entry, coords: Option<Coordinates>)
    ensures var r := FinalRecord(entry, coords);
      var place := PlaceOf(coords);
      && Lookup(r, "city") == (if entry.location.Some? then Some(Str(entry.location.value.city)) else None)
      && Lookup(r, "state") == (if entry.location.Some? then Some(Str(entry.location.value.state)) else None)
      && Lookup(r, "hookup_type") == Some(Str(if entry.hookupType.Some? then entry.hookupType.value else "full"))
      && Lookup(r, "campground") == ObjOf(entry.campground)
      && Lookup(r, "latitude") == (if place.Some? then NumOf(place.value.latitude) else None)
      && Lookup(r, "longitude") == (if place.Some? then NumOf(place.value.longitude) else None)
      && Lookup(r, "placeId") == (if place.Some? then StrOf(place.value.placeId) else None)
    ensures var r := FinalRecord(entry, coords);
      && Lookup(r, "cg_notes") == StrOf(entry.cgNotes)
      && Lookup(r, "trail") == ObjOf(entry.trail)
      && Lookup(r, "trails") == (if entry.trails.Some? then Some(Objs(entry.trails.value)) else None)
      && Lookup(r, "trail_notes") == StrOf(entry.trailNotes)
      && Lookup(r, "directions") == StrOf(entry.directions)
      && Lookup(r, "other") == StrOf(entry.other)
    ensures var r := FinalRecord(entry, coords);
      && Lookup(r, "blog_post") == StrOf(entry.blogPost)
      && Lookup(r, "blog_post_link") == StrOf(entry.blogPostLink)
      && Lookup(r, "contributor") == StrOf(entry.contributor)
      && Lookup(r, "contributor_blog") == StrOf(entry.contributorBlog)
      && Lookup(r, "contributor_blog_link") == StrOf(entry.contributorBlogLink)
  {
    FinalHeadKeys(entry, coords);
    FinalNoteKeys(entry, coords);
    FinalLinkKeys(entry, coords);
  }

  /** The final record's location, hookup, campground and place keys. */
  lemma {:induction false} FinalHeadKeys(entry: Entry, coords: Option<Coordinates>)
    ensures var r := FinalRecord(entry, coords);
      var place := PlaceOf(coords);
      && Lookup(r, "city") == (if entry.location.Some? then Some(Str(entry.location.value.city)) else None)
      && Lookup(r, "state") == (if entry.location.Some? then Some(Str(entry.location.value.state)) else None)
      && Lookup(r, "hookup_type") == Some(Str(if entry.hookupType.Some? then entry.hookupType.value else "full"))
      && Lookup(r, "campground") == ObjOf(entry.campground)
      && Lookup(r, "latitude") == (if place.Some? then NumOf(place.value.latitude) else None)
      && Lookup(r, "longitude") == (if place.Some? then NumOf(place.value.longitude) else None)
      && Lookup(r, "placeId") == (if place.Some? then StrOf(place.value.placeId) else None)
  {
    DraftEntryValues(entry, coords);
    DraftPlaceValues(entry, coords);
    FinalRecordAt(entry, coords, "city");
    FinalRecordAt(entry, coords, "state");
    FinalRecordAt(entry, coords, "hookup_type");
    FinalRecordAt(entry, coords, "campground");
    FinalRecordAt(entry, coords, "latitude");
    FinalRecordAt(entry, coords, "longitude");
    FinalRecordAt(entry, coords, "placeId");
  }

  /** The final record's notes, trail and directions keys. */
  lemma {:induction false} FinalNoteKeys(entry: Entry, coords: Option<Coordinates>)
    ensures var r := FinalRecord(entry, coords);
      && Lookup(r, "cg_notes") == StrOf(entry.cgNotes)
      && Lookup(r, "trail") == ObjOf(entry.trail)
      && Lookup(r, "trails") == (if entry.trails.Some? then Some(Objs(entry.trails.value)) else None)
      && Lookup(r, "trail_notes") == StrOf(entry.trailNotes)
      && Lookup(r, "directions") == StrOf(entry.directions)
      && Lookup(r, "other") == StrOf(entry.other)
  {
    DraftNoteValues(entry, coords);
    FinalRecordAt(entry, coords, "cg_notes");
    FinalRecordAt(entry, coords, "trail");
    FinalRecordAt(entry, coords, "trails");
    FinalRecordAt(entry, coords, "trail_notes");
    FinalRecordAt(entry, coords, "directions");
    FinalRecordAt(entry, coords, "other");
  }

  /** The final record's blog and contributor keys. */
  lemma {:induction false} FinalLinkKeys(entry: Entry, coords: Option<Coordinates>)
    ensures var r := FinalRecord(entry, coords);
      && Lookup(r, "blog_post") == StrOf(entry.blogPost)
      && Lookup(r, "blog_post_link") == StrOf(entry.blogPostLink)
      && Lookup(r, "contributor") == StrOf(entry.contributor)
      && Lookup(r, "contributor_blog") == StrOf(entry.contributorBlog)
      && Lookup(r, "contributor_blog_link") == StrOf(entry.contributorBlogLink)
  {
    DraftLinkValues(entry, coords);
    FinalRecordAt(entry, coords, "blog_post");
    FinalRecordAt(entry, coords, "blog_post_link");
    FinalRecordAt(entry, coords, "contributor");
    FinalRecordAt(entry, coords, "contributor_blog");
    FinalRecordAt(entry, coords, "contributor_blog_link");
  }

  /** The final record reads k as the draft does. */
  lemma {:induction false} FinalRecordAt(entry: Entry, coords: Option<Coordinates>, k: string)
    ensures Lookup(FinalRecord(entry, coords), k) == DraftGet(Draft(entry, coords), k)
  {
    FinalRecordLookup(entry, coords);
  }

  /** Every key of the final record reads as in the draft. */
  lemma {:induction false} FinalRecordLookup(entry: Entry, coords: Option<Coordinates>)
    ensures forall k :: Lookup(FinalRecord(entry, coords), k) == DraftGet(Draft(entry, coords), k)
  {
    var d := Draft(entry, coords);
    RecordKeysDistinct(d);
    forall k ensures Lookup(Prune(d), k) == DraftGet(d, k) {
      PruneLookup(d, k);
    }
  }

  /** The draft's values taken from the entry. */
  lemma {:induction false} DraftEntryValues(entry: Entry, coords: Option<Coordinates>)
    ensures var d := Draft(entry, coords);
      && DraftGet(d, "city") == (if entry.location.Some? then Some(Str(entry.location.value.city)) else None)
      && DraftGet(d, "state") == (if entry.location.Some? then Some(Str(entry.location.value.state)) else None)
      && DraftGet(d, "hookup_type") == Some(Str(if entry.hookupType.Some? then entry.hookupType.value else "full"))
      && DraftGet(d, "campground") == ObjOf(entry.campground)
  {
    var d := Draft(entry, coords);
    RecordKeysDistinct(d);
    DraftGetAt(d, 0);
    DraftGetAt(d, 1);
    DraftGetAt(d, 2);
    DraftGetAt(d, 3);
  }

  /** The draft's notes, trail and directions values. */
  lemma {:induction false} DraftNoteValues(entry: Entry, coords: Option<Coordinates>)
    ensures var d := Draft(entry, coords);
      && DraftGet(d, "cg_notes") == StrOf(entry.cgNotes)
      && DraftGet(d, "trail") == ObjOf(entry.trail)
      && DraftGet(d, "trails") == (if entry.trails.Some? then Some(Objs(entry.trails.value)) else None)
      && DraftGet(d, "trail_notes") == StrOf(entry.trailNotes)
      && DraftGet(d, "directions") == StrOf(entry.directions)
      && DraftGet(d, "other") == StrOf(entry.other)
  {
    var d := Draft(entry, coords);
    RecordKeysDistinct(d);
    DraftGetAt(d, 4);
    DraftGetAt(d, 5);
    DraftGetAt(d, 6);
    DraftGetAt(d, 7);
    DraftGetAt(d, 8);
    DraftGetAt(d, 9);
  }

  /** The draft's blog and contributor values. */
  lemma {:induction false} DraftLinkValues(entry: Entry, coords: Option<Coordinates>)
    ensures var d := Draft(entry, coords);
      && DraftGet(d, "blog_post") == StrOf(entry.blogPost)
      && DraftGet(d, "blog_post_link") == StrOf(entry.blogPostLink)
      && DraftGet(d, "contributor") == StrOf(entry.contributor)
      && DraftGet(d, "contributor_blog") == StrOf(entry.contributorBlog)
      && DraftGet(d, "contributor_blog_link") == StrOf(entry.contributorBlogLink)
  {
    var d := Draft(entry, coords);
    RecordKeysDistinct(d);
    DraftGetAt(d, 10);
    DraftGetAt(d, 11);
    DraftGetAt(d, 12);
    DraftGetAt(d, 13);
    DraftGetAt(d, 14);
  }

  /** The draft's values taken from the place found. */
  lemma {:induction false} DraftPlaceValues(entry: Entry, coords: Option<Coordinates>)
    ensures var d := Draft(entry, coords);
      var place := PlaceOf(coords);
      && DraftGet(d, "latitude") == (if place.Some? then NumOf(place.value.latitude) else None)
      && DraftGet(d, "longitude") == (if place.Some? then NumOf(place.value.longitude) else None)
      && DraftGet(d, "placeId") == (if place.Some? then StrOf(place.value.placeId) else None)
  {
    var d := Draft(entry, coords);
    RecordKeysDistinct(d);
    DraftGetAt(d, 15);
    DraftGetAt(d, 16);
    DraftGetAt(d, 17);
  }

  // ---------------------------------------------------------------------
  // Duplicate detection

  /** Why saving fails: the final record has no city (or no state) to
      compare with, or a stored campground is not an object. */
  datatype SaveError = MissingCity | MissingState | CampgroundNotObject

  /** `r.get('campground', {}).get('name')`, which fails on a campground
      value that is not an object. */
  datatype NameLookup = BadCampground | Name(name: Option<string>)

  function CampgroundNameIn(r: Record): NameLookup {
    match Lookup(r, "campground")
    case None => Name(None)
    case Some(v) => if v.Obj? then Name(Some(v.named.name)) else BadCampground
  }

  /** Comparing a stored record with the final one, in the order the
      conditions are evaluated. */
  datatype Comparison = Error(error: SaveError) | Same | Differs

  function Compare(e: Record, rec: Record): Comparison {
    var city := Lookup(rec, "city");
    if city.None? then Error(MissingCity)
    else if Lookup(e, "city") != city then Differs
    else if Lookup(rec, "state").None? then Error(MissingState)
    else if Lookup(e, "state") != Lookup(rec, "state") then Differs
    else
      match CampgroundNameIn(e)
      case BadCampground => Error(CampgroundNotObject)
      case Name(n) =>
        match CampgroundNameIn(rec)
        case BadCampground => Error(CampgroundNotObject)
        case Name(m) => if n == m then Same else Differs
  }

  /** The outcome of the duplicate search. */
  datatype Match = Failure(error: SaveError) | NoMatch | MatchAt(index: nat)

  /** `next(e for e in entries if …)` from i on: the first stored record
      that compares Same, unless a comparison fails first. */
  function FirstMatch(entries: seq<Record>, rec: Record, i: nat): (m: Match)
    requires i <= |entries|
    ensures m.MatchAt? ==> i <= m.index < |entries|
    decreases |entries| - i
  {
    if i == |entries| then NoMatch
    else
      match Compare(entries[i], rec)
      case Error(x) => Failure(x)
      case Same => MatchAt(i)
      case Differs => FirstMatch(entries, rec, i + 1)
  }

  /** The search finds the first record with equal city, state and
      campground name, after records that all differ; it finds none only
      when every record differs; and it fails only at a comparison that
      fails, after records that all differ. */
  lemma {:induction false} FirstMatchMeaning(entries: seq<Record>, rec: Record, i: nat)
    requires i <= |entries|
    ensures var m := FirstMatch(entries, rec, i);
      && (m.MatchAt? ==> i <= m.index < |entries| && Compare(entries[m.index], rec) == Same
                         && forall j :: i <= j < m.index ==> Compare(entries[j], rec) == Differs)
      && (m.NoMatch? <==> forall j :: i <= j < |entries| ==> Compare(entries[j], rec) == Differs)
      && (m.Failure? ==>
            exists k :: (i <= k < |entries| && Compare(entries[k], rec) == Error(m.error)
                         && forall j :: i <= j < k ==> Compare(entries[j], rec) == Differs))
  {
    FirstMatchStops(entries, rec, i);
    FirstMatchNone(entries, rec, i);
  }

  /** Where the search stops: at a record that compares Same or at one
      whose comparison fails, after records that all differ. */
  lemma {:induction false} FirstMatchStops(entries: seq<Record>, rec: Record, i: nat)
    requires i <= |entries|
    ensures var m := FirstMatch(entries, rec, i);
      && (m.MatchAt? ==> i <= m.index < |entries| && Compare(entries[m.index], rec) == Same
                         && forall j :: i <= j < m.index ==> Compare(entries[j], rec) == Differs)
      && (m.Failure? ==>
            exists k :: (i <= k < |entries| && Compare(entries[k], rec) == Error(m.error)
                         && forall j :: i <= j < k ==> Compare(entries[j], rec) == Differs))
    decreases |entries| - i
  {
    if i < |entries| {
      FirstMatchStops(entries, rec, i + 1);
      if Compare(entries[i], rec).Error? {
        assert Compare(entries[i], rec) == Error(FirstMatch(entries, rec, i).error);
      }
    }
  }

  /** The search finds nothing exactly when every record differs. */
  lemma {:induction false} FirstMatchNone(entries: seq<Record>, rec: Record, i: nat)
    requires i <= |entries|
    ensures FirstMatch(entries, rec, i).NoMatch? <==> forall j :: i <= j < |entries| ==> Compare(entries[j], rec) == Differs
    decreases |entries| - i
  {
    if i < |entries| {
      FirstMatchNone(entries, rec, i + 1);
    }
  }

  /** A record without a city cannot be compared: saving it fails as soon
      as the database holds any record. */
  lemma {:induction false} MissingKeysFail(entries: seq<Record>, rec: Record)
    ensures Lookup(rec, "city").None? && entries != [] ==> FirstMatch(entries, rec, 0) == Failure(MissingCity)
    ensures Lookup(rec, "city").None? && entries == [] ==> FirstMatch(entries, rec, 0) == NoMatch
  {
  }

  /** A record that has a city but no state is compared only once a
      stored record has the same city: saving it fails exactly when some
      stored record has that city, and otherwise appends it. */
  lemma {:induction false} MissingStateFails(entries: seq<Record>, rec: Record, i: nat)
    requires i <= |entries| && Lookup(rec, "city").Some? && Lookup(rec, "state").None?
    ensures var m := FirstMatch(entries, rec, i);
      && (m == Failure(MissingState) || m == NoMatch)
      && (m == Failure(MissingState) <==>
            exists j :: i <= j < |entries| && Lookup(entries[j], "city") == Lookup(rec, "city"))
    decreases |entries| - i
  {
    if i < |entries| {
      MissingStateFails(entries, rec, i + 1);
    }
  }

  /** `entries.index(x)`: the first position holding a record equal to x. */
  function IndexOf(entries: seq<Record>, x: Record, i: nat): (k: nat)
    requires i <= |entries|
    ensures i <= k <= |entries|
    ensures k < |entries| ==> entries[k] == x
    ensures forall j :: i <= j < k ==> entries[j] != x
    decreases |entries| - i
  {
    if i == |entries| || entries[i] == x then i else IndexOf(entries, x, i + 1)
  }

  /** The matching record's position is also where `index` finds it: a
      record equal to it earlier would have matched first. */
  lemma {:induction false} IndexOfMatch(entries: seq<Record>, rec: Record, m: nat)
    requires FirstMatch(entries, rec, 0) == MatchAt(m)
    ensures m < |entries| && entries[m] != [] && IndexOf(entries, entries[m], 0) == m
  {
    FirstMatchMeaning(entries, rec, 0);
  }

  /** The entry list after saving rec, when the search did not fail: the
      match replaced in place, or rec appended. */
  function Upsert(entries: seq<Record>, rec: Record): seq<Record>
    requires !FirstMatch(entries, rec, 0).Failure?
  {
    FirstMatchMeaning(entries, rec, 0);
    match FirstMatch(entries, rec, 0)
    case MatchAt(m) => entries[m := rec]
    case NoMatch => entries + [rec]
  }

  /** Replacing keeps the length and every other record; appending grows
      the list by one and keeps every earlier record. */
  lemma {:induction false} UpsertEffect(entries: seq<Record>, rec: Record)
    requires !FirstMatch(entries, rec, 0).Failure?
    ensures var m := FirstMatch(entries, rec, 0);
      var r := Upsert(entries, rec);
      && (m.MatchAt? ==> |r| == |entries| && r[m.index] == rec
                         && forall j :: 0 <= j < |entries| && j != m.index ==> r[j] == entries[j])
      && (m.NoMatch? ==> |r| == |entries| + 1 && r[|entries|] == rec
                         && forall j :: 0 <= j < |entries| ==> r[j] == entries[j])
  {
    FirstMatchMeaning(entries, rec, 0);
  }

  /** The duplicate search `next(e for e in entries if …, None)`: the
      first stored record that compares equal, or the error of the first
      comparison that fails before one does. */
  method FindDuplicate(entries: seq<Record>, rec: Record) returns (error: Option<SaveError>, existing: Option<Record>)
    ensures var m := FirstMatch(entries, rec, 0);
      && (m.Failure? ==> error == Some(m.error) && existing.None?)
      && (m.MatchAt? ==> error.None? && existing == Some(entries[m.index]))
      && (m.NoMatch? ==> error.None? && existing.None?)
  {
    var i := 0;
    while i < |entries|
      invariant 0 <= i <= |entries|
      invariant FirstMatch(entries, rec, 0) == FirstMatch(entries, rec, i)
    {
      var c := Compare(entries[i], rec);
      if c.Error? {
        return Some(c.error), None;
      }
      if c == Same {
        return None, Some(entries[i]);
      }
      i := i + 1;
    }
    return None, None;
  }

  /** Saving a final record into a list of entries: look for a duplicate,
      then replace it or append. A failed comparison leaves the entries
      unchanged. A stored record that compares equal has a city, so it is
      never the empty record that the truth test would skip. */
  method SaveRecord(entries: seq<Record>, rec: Record) returns (outcome: Outcome<SaveError>, result: seq<Record>)
    ensures var m := FirstMatch(entries, rec, 0);
      && (m.Failure? ==> outcome == Fail(m.error) && result == entries)
      && (!m.Failure? ==> outcome == Pass && result == Upsert(entries, rec))
  {
    var error, existing := FindDuplicate(entries, rec);
    if error.Some? {
      return Fail(error.value), entries;
    }
    if existing.Some? {
      IndexOfMatch(entries, rec, FirstMatch(entries, rec, 0).index);
    }
    if existing.Some? && existing.value != [] {
      var idx := IndexOf(entries, existing.value, 0);
      result := entries[idx := rec];
    } else {
      result := entries + [rec];
    }
    return Pass, result;
  }

  /** The in-memory database: its list of entries. */
  class Database {
    var entries: seq<Record>

    /** The database load_database creates when there is none yet. */
    constructor ()
      ensures entries == []
    {
      entries := [];
    }

    /** save_entry_to_database without the file I/O: build the final
        record and save it into the entry list. */
    method Save(entry: Entry, coords: Option<Coordinates>) returns (outcome: Outcome<SaveError>)
      modifies this
      ensures var rec := FinalRecord(entry, coords);
        var m := FirstMatch(old(entries), rec, 0);
        && (m.Failure? ==> outcome == Fail(m.error) && entries == old(entries))
        && (!m.Failure? ==> outcome == Pass && entries == Upsert(old(entries), rec))
    {
      var rec := FinalRecord(entry, coords);
      outcome, entries := SaveRecord(entries, rec);
    }
  }
}
