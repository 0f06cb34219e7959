/** Turning a generated JSON draft into a typed itinerary: the merge with a base snapshot and the schema check. */
module Schema {
  import opened Drafts
  import opened Json
  import opened Sequences
  import opened Text
  import opened Wrappers

  /** Days are counted as `date.toordinal` does; `iso` prints a day and `parse` reads one. */
  datatype Calendar = Calendar(iso: int -> string, parse: string -> Option<int>)

  /** Reading undoes printing. Other notations may read as the same day. */
  ghost predicate Lawful(cal: Calendar) {
    forall d :: cal.parse(cal.iso(d)) == Some(d)
  }

  /** A request; `target` is set for the modification of an itinerary with the given snapshot. */
  datatype Request = Request(
    job: string, user: string, prompt: string, city: string, start: int, end: int, budget: Option<int>,
    target: Option<string>, base: Option<Fields>, mustVisit: seq<string>)

  function DayCount(req: Request): int {
    req.end - req.start + 1
  }

  function Expected(req: Request): (n: nat) {
    if DayCount(req) < 0 then 0 else DayCount(req)
  }

  /******* Merging a modification into the base snapshot *******/

  function DayOn(date: string, activities: seq<Json>): Json {
    Obj(map["date" := Str(date), "activities" := Arr(activities)])
  }

  /** The activity of a base event that has a named place with a location. */
  function EventActivity(event: Json): Option<Json> {
    if !event.Obj? then None
    else
      var snapshot := Get(event.fields, "poi_snapshot");
      if !snapshot.Obj? || !Get(snapshot.fields, "location").Obj? then None
      else
        var poi, name, notes := Get(event.fields, "poi_id"), Get(snapshot.fields, "name"), Get(event.fields, "notes");
        if !poi.Str? || !name.Str? then None
        else Some(Obj(map["poi_id" := poi, "title" := if notes.Str? then notes else name,
                          "estimated_cost" := Int(0), "event_id" := Get(event.fields, "id")]))
  }

  function UsableActivities(events: seq<Json>): seq<Json> {
    if events == [] then []
    else
      UsableActivities(events[..|events| - 1])
      + match EventActivity(events[|events| - 1])
        case None => []
        case Some(activity) => [activity]
  }

  predicate IsGeneratedDay(item: Json, date: string) {
    item.Obj? && Get(item.fields, "date") == Str(date)
  }

  predicate IsBaseDay(item: Json, date: string) {
    item.Obj? && Get(item.fields, "day_date") == Str(date) && Get(item.fields, "events").Arr?
  }

  /** The last generated day with the date, if any. */
  function LastGenerated(days: seq<Json>, date: string): Option<Json> {
    if days == [] then None
    else if IsGeneratedDay(days[|days| - 1], date) then Some(days[|days| - 1])
    else LastGenerated(days[..|days| - 1], date)
  }

  /** The first base day with the date that has events, if any. */
  function FirstBase(days: seq<Json>, date: string): Option<Json> {
    if days == [] then None
    else if IsBaseDay(days[0], date) then Some(days[0])
    else FirstBase(days[1..], date)
  }

  function EventsOf(day: Json): seq<Json> {
    if day.Obj? && Get(day.fields, "events").Arr? then Get(day.fields, "events").items else []
  }

  /** The day that the generated days and then the base days give for a date, if any. */
  function Entry(generated: Option<Json>, base: seq<Json>, date: string): Option<Json> {
    if generated.Some? then generated
    else
      match FirstBase(base, date)
      case Some(day) => Some(DayOn(date, UsableActivities(EventsOf(day))))
      case None => None
  }

  /** What the preview shows on a day: the generated day, else the base day's usable events, else nothing. */
  function MergedDay(generated: seq<Json>, base: seq<Json>, date: string): Json {
    match Entry(LastGenerated(generated, date), base, date)
    case Some(day) => day
    case None => DayOn(date, [])
  }

  function MergedDays(cal: Calendar, req: Request, generated: seq<Json>, base: seq<Json>): (days: seq<Json>)
    ensures |days| == Expected(req)
  {
    seq(Expected(req), i requires 0 <= i < Expected(req) => MergedDay(generated, base, cal.iso(req.start + i)))
  }

  predicate Merges(req: Request, generated: Fields) {
    req.target.Some? && req.base.Some? && Get(generated, "days").Arr? && Get(req.base.value, "days").Arr?
  }

  function Merged(cal: Calendar, req: Request, generated: Fields): Fields {
    if !Merges(req, generated) then generated
    else map["title" := Get(generated, "title"),
             "days" := Arr(MergedDays(cal, req, DaysOf(generated), DaysOf(req.base.value)))]
  }

  /** The days by date: those generated first, the later ones winning. */
  method GeneratedDays(days: seq<Json>) returns (merged: map<string, Json>)
    ensures forall date :: Find(merged, date) == LastGenerated(days, date)
  {
    merged := map[];
    for i := 0 to |days|
      invariant forall date :: Find(merged, date) == LastGenerated(days[..i], date)
    {
      assert days[..i + 1][..i] == days[..i];
      var item := days[i];
      if item.Obj? && Get(item.fields, "date").Str? {
        merged := merged[Get(item.fields, "date").s := item];
      }
    }
    assert days[..|days|] == days;
  }

  method BaseActivities(events: seq<Json>) returns (activities: seq<Json>)
    ensures activities == UsableActivities(events)
  {
    activities := [];
    for i := 0 to |events|
      invariant activities == UsableActivities(events[..i])
    {
      assert events[..i + 1][..i] == events[..i];
      var activity := EventActivity(events[i]);
      if activity.Some? {
        activities := activities + [activity.value];
      }
    }
    assert events[..|events|] == events;
  }

  function Find(m: map<string, Json>, date: string): Option<Json> {
    if date in m then Some(m[date]) else None
  }

  lemma {:induction false} FirstBaseGrows(base: seq<Json>, i: nat, date: string)
    requires i < |base|
    ensures FirstBase(base[..i + 1], date)
         == if FirstBase(base[..i], date).Some? then FirstBase(base[..i], date)
            else if IsBaseDay(base[i], date) then Some(base[i]) else None
    decreases i
  {
    if i > 0 {
      assert base[..i + 1][1..] == base[1..][..i] && base[..i][1..] == base[1..][..i - 1];
      FirstBaseGrows(base[1..], i - 1, date);
    } else {
      assert base[..1][1..] == [];
    }
  }

  method AddBaseDays(generated: map<string, Json>, base: seq<Json>) returns (merged: map<string, Json>)
    ensures forall date :: Find(merged, date) == Entry(Find(generated, date), base, date)
  {
    merged := generated;
    for i := 0 to |base|
      invariant forall date :: Find(merged, date) == Entry(Find(generated, date), base[..i], date)
    {
      forall date
        ensures FirstBase(base[..i + 1], date)
             == if FirstBase(base[..i], date).Some? then FirstBase(base[..i], date)
                else if IsBaseDay(base[i], date) then Some(base[i]) else None
      {
        FirstBaseGrows(base, i, date);
      }
      hide FirstBase, UsableActivities;
      merged := AddBaseDay(merged, base[i]);
    }
    assert base[..|base|] == base;
  }

  /** A base day counts only if its date has no entry yet. */
  method AddBaseDay(before: map<string, Json>, item: Json) returns (merged: map<string, Json>)
    ensures forall date ::
              Find(merged, date) == if Find(before, date).Some? then Find(before, date)
                                    else if IsBaseDay(item, date) then Some(DayOn(date, UsableActivities(EventsOf(item))))
                                    else None
  {
    merged := before;
    if item.Obj? && Get(item.fields, "day_date").Str? && Get(item.fields, "events").Arr? {
      var date := Get(item.fields, "day_date").s;
      if date !in merged {
        var activities := BaseActivities(Get(item.fields, "events").items);
        merged := merged[date := DayOn(date, activities)];
      }
    }
    hide UsableActivities;
  }

  /** Merges a modification into the base snapshot; other drafts pass unchanged. */
  method MergeTargetSnapshot(cal: Calendar, req: Request, generated: Fields) returns (r: Fields)
    ensures r == Merged(cal, req, generated)
  {
    if req.target.None? || req.base.None? {
      return generated;
    }
    var generatedDays, baseDays := Get(generated, "days"), Get(req.base.value, "days");
    if !generatedDays.Arr? || !baseDays.Arr? {
      return generated;
    }
    var merged := GeneratedDays(generatedDays.items);
    merged := AddBaseDays(merged, baseDays.items);
    var days: seq<Json> := [];
    var expected := MergedDays(cal, req, generatedDays.items, baseDays.items);
    for i := 0 to Expected(req)
      invariant days == expected[..i]
    {
      var date := cal.iso(req.start + i);
      assert Find(merged, date) == Entry(LastGenerated(generatedDays.items, date), baseDays.items, date);
      var day := if date in merged then merged[date] else DayOn(date, []);
      assert day == MergedDay(generatedDays.items, baseDays.items, date);
      days := days + [day];
    }
    assert expected[..Expected(req)] == expected;
    r := map["title" := Get(generated, "title"), "days" := Arr(days)];
  }

  /** Merging the result again changes nothing. */
  lemma MergeIdempotent(cal: Calendar, req: Request, generated: Fields)
    requires Lawful(cal)
    ensures Merged(cal, req, Merged(cal, req, generated)) == Merged(cal, req, generated)
  {
    if Merges(req, generated) {
      var base := DaysOf(req.base.value);
      var once := MergedDays(cal, req, DaysOf(generated), base);
      forall k | 0 <= k < |once|
        ensures IsGeneratedDay(once[k], cal.iso(req.start + k))
      {
        MergedDayHasDate(DaysOf(generated), base, cal.iso(req.start + k));
      }
      forall i | 0 <= i < |once|
        ensures MergedDay(once, base, cal.iso(req.start + i)) == once[i]
      {
        OnlyDayWithDate(cal, req, once, i);
      }
      assert MergedDays(cal, req, once, base) == once;
    }
  }

  lemma {:induction false} MergedDayHasDate(generated: seq<Json>, base: seq<Json>, date: string)
    ensures IsGeneratedDay(MergedDay(generated, base, date), date)
    decreases |generated|
  {
    if generated != [] && !IsGeneratedDay(generated[|generated| - 1], date) {
      MergedDayHasDate(generated[..|generated| - 1], base, date);
    }
  }

  /** In a list with one day for each expected date, the last day with a date is the only one. */
  lemma OnlyDayWithDate(cal: Calendar, req: Request, days: seq<Json>, i: nat)
    requires Lawful(cal) && i < |days|
    requires forall k | 0 <= k < |days| :: IsGeneratedDay(days[k], cal.iso(req.start + k))
    ensures LastGenerated(days, cal.iso(req.start + i)) == Some(days[i])
    decreases |days|
  {
    var last := |days| - 1;
    assert cal.parse(cal.iso(req.start + last)) == Some(req.start + last);
    assert cal.parse(cal.iso(req.start + i)) == Some(req.start + i);
    if i < last {
      OnlyDayWithDate(cal, req, days[..last], i);
    }
  }

  /******* What a merged day carries, by the fields of its sources *******/

  /** The item is an object with that date under that key. */
  predicate DatedAs(item: Json, key: string, date: string) {
    item.Obj? && key in item.fields && item.fields[key] == Str(date)
  }

  /** An event that names its place and holds the place's name and location. */
  predicate NamesPlace(event: Json) {
    && event.Obj? && "poi_id" in event.fields && event.fields["poi_id"].Str?
    && "poi_snapshot" in event.fields && event.fields["poi_snapshot"].Obj?
    && var snapshot := event.fields["poi_snapshot"].fields;
       "location" in snapshot && snapshot["location"].Obj? && "name" in snapshot && snapshot["name"].Str?
  }

  /** The activity has the event's place, its notes or else the place's name as title, no cost, and the event's id. */
  predicate CarriesEvent(event: Json, activity: Json)
    requires NamesPlace(event)
  {
    && activity.Obj? && activity.fields.Keys == {"poi_id", "title", "estimated_cost", "event_id"}
    && activity.fields["poi_id"] == event.fields["poi_id"]
    && activity.fields["title"] == (if "notes" in event.fields && event.fields["notes"].Str? then event.fields["notes"]
                                    else event.fields["poi_snapshot"].fields["name"])
    && activity.fields["estimated_cost"] == Int(0)
    && activity.fields["event_id"] == if "id" in event.fields then event.fields["id"] else Null
  }

  lemma EventActivityCarries(event: Json)
    ensures EventActivity(event).Some? <==> NamesPlace(event)
    ensures NamesPlace(event) ==> CarriesEvent(event, EventActivity(event).value)
  {
  }

  /** The activities are those of the events that name a place, in order: `picks` are the positions of these events. */
  ghost predicate Carries(events: seq<Json>, activities: seq<Json>, picks: seq<nat>) {
    && |picks| == |activities|
    && (forall i, j | 0 <= i < j < |picks| :: picks[i] < picks[j])
    && (forall i | 0 <= i < |picks| :: picks[i] < |events| && NamesPlace(events[picks[i]]) && CarriesEvent(events[picks[i]], activities[i]))
    && forall k: nat | k < |events| && NamesPlace(events[k]) :: k in picks
  }

  lemma CarriesOneMore(events: seq<Json>, activities: seq<Json>, picks: seq<nat>, activity: Json)
    requires events != [] && Carries(events[..|events| - 1], activities, picks)
    requires NamesPlace(events[|events| - 1]) && CarriesEvent(events[|events| - 1], activity)
    ensures Carries(events, activities + [activity], picks + [|events| - 1])
  {
    hide NamesPlace, CarriesEvent;
    var before, more := events[..|events| - 1], picks + [|events| - 1];
    assert forall i | 0 <= i < |picks| :: more[i] == picks[i] && events[picks[i]] == before[picks[i]];
    forall k: nat | k < |events| && NamesPlace(events[k])
      ensures k in more
    {
      if k < |before| {
        assert before[k] == events[k] && k in picks;
      } else {
        assert more[|picks|] == k;
      }
    }
  }

  lemma CarriesNoMore(events: seq<Json>, activities: seq<Json>, picks: seq<nat>)
    requires events != [] && Carries(events[..|events| - 1], activities, picks) && !NamesPlace(events[|events| - 1])
    ensures Carries(events, activities, picks)
  {
    hide NamesPlace, CarriesEvent;
    var before := events[..|events| - 1];
    assert forall i | 0 <= i < |picks| :: events[picks[i]] == before[picks[i]];
    forall k: nat | k < |events| && NamesPlace(events[k])
      ensures k in picks
    {
      assert k < |before| && before[k] == events[k];
    }
  }

  lemma {:induction false} UsableCarries(events: seq<Json>) returns (picks: seq<nat>)
    ensures Carries(events, UsableActivities(events), picks)
    decreases |events|
  {
    hide EventActivity, NamesPlace, CarriesEvent, Carries;
    if events == [] {
      picks := [];
      NothingCarried();
    } else {
      var before, last := events[..|events| - 1], events[|events| - 1];
      picks := UsableCarries(before);
      EventActivityCarries(last);
      if EventActivity(last).Some? {
        CarriesOneMore(events, UsableActivities(before), picks, EventActivity(last).value);
        picks := picks + [|events| - 1];
      } else {
        CarriesNoMore(events, UsableActivities(before), picks);
        assert UsableActivities(before) + [] == UsableActivities(before);
      }
    }
  }

  lemma NothingCarried()
    ensures Carries([], [], [])
  {
  }

  lemma {:induction false} LastGeneratedIs(days: seq<Json>, date: string)
    ensures match LastGenerated(days, date)
            case None => forall k | 0 <= k < |days| :: !DatedAs(days[k], "date", date)
            case Some(day) => exists k :: 0 <= k < |days| && day == days[k] && DatedAs(days[k], "date", date)
                                          && forall j | k < j < |days| :: !DatedAs(days[j], "date", date)
    decreases |days|
  {
    if days != [] && !IsGeneratedDay(days[|days| - 1], date) {
      LastGeneratedIs(days[..|days| - 1], date);
    }
  }

  predicate HasEvents(item: Json) {
    item.Obj? && "events" in item.fields && item.fields["events"].Arr?
  }

  lemma {:induction false} FirstBaseIs(days: seq<Json>, date: string)
    ensures match FirstBase(days, date)
            case None => forall k | 0 <= k < |days| :: !(DatedAs(days[k], "day_date", date) && HasEvents(days[k]))
            case Some(day) => exists k :: 0 <= k < |days| && day == days[k] && DatedAs(days[k], "day_date", date) && HasEvents(days[k])
                                          && forall j | 0 <= j < k :: !(DatedAs(days[j], "day_date", date) && HasEvents(days[j]))
    decreases |days|
  {
    if days != [] && !IsBaseDay(days[0], date) {
      FirstBaseIs(days[1..], date);
      assert forall k | 1 <= k < |days| :: days[k] == days[1..][k - 1];
      if FirstBase(days[1..], date).Some? {
        var k :| 0 <= k < |days[1..]| && FirstBase(days[1..], date).value == days[1..][k] && DatedAs(days[1..][k], "day_date", date)
                 && HasEvents(days[1..][k]) && forall j | 0 <= j < k :: !(DatedAs(days[1..][j], "day_date", date) && HasEvents(days[1..][j]));
        assert days[k + 1] == days[1..][k];
      }
    }
  }

  /** The day is built from the events: its date, the carried activities, and nothing else. */
  ghost predicate BuiltFrom(day: Json, date: string, events: seq<Json>) {
    && day.Obj? && day.fields.Keys == {"date", "activities"} && day.fields["date"] == Str(date) && day.fields["activities"].Arr?
    && exists picks :: Carries(events, day.fields["activities"].items, picks)
  }

  /**
   The day that is shown for a date, by its sources: the last generated day with the date as it
   is; or else what the first base day with the date and events carries; or else no activity.
   */
  lemma MergedDayMeans(generated: seq<Json>, base: seq<Json>, date: string)
    ensures var day := MergedDay(generated, base, date);
            if exists k :: 0 <= k < |generated| && DatedAs(generated[k], "date", date) then
              exists k :: 0 <= k < |generated| && day == generated[k] && DatedAs(generated[k], "date", date)
                          && forall j | k < j < |generated| :: !DatedAs(generated[j], "date", date)
            else if exists k :: 0 <= k < |base| && DatedAs(base[k], "day_date", date) && HasEvents(base[k]) then
              exists k :: 0 <= k < |base| && DatedAs(base[k], "day_date", date) && HasEvents(base[k])
                          && (forall j | 0 <= j < k :: !(DatedAs(base[j], "day_date", date) && HasEvents(base[j])))
                          && BuiltFrom(day, date, base[k].fields["events"].items)
            else
              BuiltFrom(day, date, [])
  {
    LastGeneratedIs(generated, date);
    FirstBaseIs(base, date);
    hide LastGenerated, FirstBase, UsableActivities;
    if LastGenerated(generated, date).None? {
      var events := if FirstBase(base, date).Some? then EventsOf(FirstBase(base, date).value) else [];
      if FirstBase(base, date).Some? {
        BuiltDay(date, events);
      } else {
        NothingBuilt(date);
      }
    }
  }

  lemma BuiltDay(date: string, events: seq<Json>)
    ensures BuiltFrom(DayOn(date, UsableActivities(events)), date, events)
  {
    var picks := UsableCarries(events);
    hide UsableActivities, Carries;
  }

  lemma NothingBuilt(date: string)
    ensures BuiltFrom(DayOn(date, []), date, [])
  {
    NothingCarried();
  }

  /******* The schema check *******/

  datatype Activity = Activity(poi: string, title: string, cost: nat, event: Option<string>)
  datatype Day = Day(date: int, activities: seq<Activity>)
  datatype Draft = Draft(title: string, days: seq<Day>)

  datatype SchemaError =
    | NoTitleOrDays | DayCountMismatch | MalformedDay | BadDate | DateOutside | TooFewActivities | TooManyActivities
    | NotAnObject | NoPoiOrTitle | BadCost | BadEventId | DatesOutOfOrder | NotVerified | RepeatedPoi | MustVisitMissing

  predicate NonEmptyStr(v: Json) {
    v.Str? && v.s != ""
  }

  /** A missing event id and a null one are the same. */
  predicate EventIdOk(v: Json) {
    v == Null || NonEmptyStr(v)
  }

  /** The typed activity that a JSON activity stands for. */
  predicate IsActivity(a: Json, t: Activity) {
    && a.Obj?
    && NonEmptyStr(Get(a.fields, "poi_id")) && Get(a.fields, "poi_id").s == t.poi
    && NonEmptyStr(Get(a.fields, "title")) && Get(a.fields, "title").s == t.title
    && NormalizeCost(Get(a.fields, "estimated_cost")) == Some(t.cost)
    && EventIdOk(Get(a.fields, "event_id"))
    && t.event == (if Get(a.fields, "event_id") == Null then None else Some(Get(a.fields, "event_id").s))
  }

  /** A typed activity, by the fields of the JSON one: id and title are not empty, and a missing event id is a null one. */
  lemma ActivityMeans(a: Json, t: Activity)
    ensures IsActivity(a, t) <==>
              && a.Obj? && t.poi != "" && t.title != ""
              && "poi_id" in a.fields && a.fields["poi_id"] == Str(t.poi)
              && "title" in a.fields && a.fields["title"] == Str(t.title)
              && NormalizeCost(if "estimated_cost" in a.fields then a.fields["estimated_cost"] else Null) == Some(t.cost)
              && match t.event
                 case None => "event_id" !in a.fields || a.fields["event_id"] == Null
                 case Some(id) => id != "" && "event_id" in a.fields && a.fields["event_id"] == Str(id)
  {
  }

  /** A typed draft, by the fields of the JSON one: a title that is not blank, and each day's date and activities. */
  lemma DraftMeans(cal: Calendar, raw: Fields, t: Draft)
    ensures IsDraft(cal, raw, t) <==>
              && "title" in raw && raw["title"].Str? && !Blank(raw["title"].s) && t.title == Strip(raw["title"].s)
              && "days" in raw && raw["days"].Arr? && |raw["days"].items| == |t.days|
              && forall i | 0 <= i < |t.days| ::
                   var d := raw["days"].items[i];
                   && d.Obj? && "date" in d.fields && d.fields["date"].Str? && cal.parse(d.fields["date"].s) == Some(t.days[i].date)
                   && "activities" in d.fields && d.fields["activities"].Arr?
                   && |d.fields["activities"].items| == |t.days[i].activities|
                   && forall j | 0 <= j < |t.days[i].activities| :: IsActivity(d.fields["activities"].items[j], t.days[i].activities[j])
  {
    hide IsActivity, Strip, Blank;
  }

  ghost predicate AreActivities(items: seq<Json>, ts: seq<Activity>) {
    |items| == |ts| && forall j | 0 <= j < |ts| :: IsActivity(items[j], ts[j])
  }

  ghost predicate IsDay(cal: Calendar, d: Json, t: Day) {
    && HasActivities(d) && Get(d.fields, "date").Str? && cal.parse(Get(d.fields, "date").s) == Some(t.date)
    && AreActivities(ActivitiesOf(d), t.activities)
  }

  ghost predicate AreDays(cal: Calendar, days: seq<Json>, ts: seq<Day>) {
    |days| == |ts| && forall i | 0 <= i < |ts| :: IsDay(cal, days[i], ts[i])
  }

  /** The typed draft that a JSON draft stands for. */
  ghost predicate IsDraft(cal: Calendar, raw: Fields, t: Draft) {
    && NonBlankStr(Get(raw, "title")) && t.title == Strip(Get(raw, "title").s)
    && Get(raw, "days").Arr? && AreDays(cal, DaysOf(raw), t.days)
  }

  function PoiIds(activities: seq<Activity>): (ids: seq<string>)
    ensures |ids| == |activities|
  {
    seq(|activities|, i requires 0 <= i < |activities| => activities[i].poi)
  }

  /** All activities of the first `n` days, in order. */
  function Selected(days: seq<Day>, n: nat): seq<Activity>
    requires n <= |days|
  {
    if n == 0 then [] else Selected(days, n - 1) + days[n - 1].activities
  }

  function AllSelected(t: Draft): seq<Activity> {
    Selected(t.days, |t.days|)
  }

  /** The activity at a position of the draft. */
  predicate IsAt(days: seq<Day>, i: int, j: int, id: string) {
    0 <= i < |days| && 0 <= j < |days[i].activities| && days[i].activities[j].poi == id
  }

  predicate OccursAt(ids: seq<string>, j: int, id: string) {
    0 <= j < |ids| && ids[j] == id
  }

  lemma {:induction false} SelectedAt(days: seq<Day>, n: nat, id: string)
    requires n <= |days|
    ensures id in PoiIds(Selected(days, n)) <==> exists i, j :: i < n && IsAt(days, i, j, id)
  {
    if n > 0 {
      var today := days[n - 1].activities;
      SelectedAt(days, n - 1, id);
      PoiIdsConcat(Selected(days, n - 1), today);
      var before, ids := PoiIds(Selected(days, n - 1)), PoiIds(today);
      assert id in before + ids <==> id in before || id in ids;
      if id in ids {
        var j :| 0 <= j < |ids| && ids[j] == id;
        assert IsAt(days, n - 1, j, id);
      }
      if i, j :| i < n && IsAt(days, i, j, id) {
        assert i < n - 1 || ids[j] == id;
      }
    }
  }

  /** No place is at two positions of the first `n` days. */
  ghost predicate PlacesApart(days: seq<Day>, n: nat) {
    forall i, j, k, l, id | i < n && k < n && IsAt(days, i, j, id) && IsAt(days, k, l, id) :: i == k && j == l
  }

  lemma {:induction false} DistinctPlaces(days: seq<Day>, n: nat)
    requires n <= |days|
    ensures Distinct(PoiIds(Selected(days, n))) <==> PlacesApart(days, n)
  {
    if n > 0 {
      var today := days[n - 1].activities;
      var before, ids := PoiIds(Selected(days, n - 1)), PoiIds(today);
      DistinctPlaces(days, n - 1);
      PoiIdsConcat(Selected(days, n - 1), today);
      DistinctParts(before, ids);
      forall id
        ensures id in before <==> exists i, j :: i < n - 1 && IsAt(days, i, j, id)
      {
        SelectedAt(days, n - 1, id);
      }
      assert forall j, id :: IsAt(days, n - 1, j, id) <==> OccursAt(ids, j, id);
      hide Selected, PoiIds;
      OneMoreDayApart(days, n, before, ids);
    }
  }

  lemma OneMoreDayApart(days: seq<Day>, n: nat, before: seq<string>, ids: seq<string>)
    requires 0 < n <= |days| && (Distinct(before) <==> PlacesApart(days, n - 1))
    requires forall id :: id in before <==> exists i, j :: i < n - 1 && IsAt(days, i, j, id)
    requires forall j, id :: IsAt(days, n - 1, j, id) <==> OccursAt(ids, j, id)
    ensures Distinct(before) && Distinct(ids) && (forall id | id in ids :: id !in before) <==> PlacesApart(days, n)
  {
    hide IsAt;
    if PlacesApart(days, n) {
      forall i, j | 0 <= i < j < |ids|
        ensures ids[i] != ids[j]
      {
        assert OccursAt(ids, i, ids[i]) && OccursAt(ids, j, ids[j]);
      }
      forall id | id in ids
        ensures id !in before
      {
        var j :| 0 <= j < |ids| && ids[j] == id;
        assert OccursAt(ids, j, id);
      }
    }
    if Distinct(before) && Distinct(ids) && (forall id | id in ids :: id !in before) {
      forall i, j, k, l, id | i < n && k < n && IsAt(days, i, j, id) && IsAt(days, k, l, id)
        ensures i == k && j == l
      {
        assert i < n - 1 || k < n - 1 ==> id in before;
        if i == n - 1 {
          assert OccursAt(ids, j, id) && ids[j] in ids;
        }
        if k == n - 1 {
          assert OccursAt(ids, l, id) && ids[l] in ids;
        }
      }
    }
  }

  lemma DistinctParts(a: seq<string>, b: seq<string>)
    ensures Distinct(a + b) <==> Distinct(a) && Distinct(b) && forall x | x in b :: x !in a
  {
    var c := a + b;
    if Distinct(a) && Distinct(b) && forall x | x in b :: x !in a {
      forall i, j | 0 <= i < j < |c|
        ensures c[i] != c[j]
      {
        if i < |a| <= j {
          assert c[i] in a && c[j] in b;
        }
      }
    }
    if Distinct(c) {
      forall i, j | 0 <= i < j < |a|
        ensures a[i] != a[j]
      {
        assert c[i] != c[j];
      }
      forall i, j | 0 <= i < j < |b|
        ensures b[i] != b[j]
      {
        assert c[|a| + i] != c[|a| + j];
      }
      forall x | x in b
        ensures x !in a
      {
        var j :| 0 <= j < |b| && b[j] == x;
        forall i | 0 <= i < |a|
          ensures a[i] != x
        {
          assert c[i] != c[|a| + j];
        }
      }
    }
  }

  predicate Verified(pool: seq<Candidate>, a: Activity) {
    a.poi in Allowed(pool) && Allowed(pool)[a.poi] == a.title
  }

  /** The days are exactly the requested ones, in order. */
  ghost predicate DatesExact(req: Request, dates: seq<int>) {
    |dates| == Expected(req) && forall i | 0 <= i < |dates| :: dates[i] == req.start + i
  }

  function Dates(days: seq<Day>): (dates: seq<int>)
    ensures |dates| == |days|
  {
    seq(|days|, i requires 0 <= i < |days| => days[i].date)
  }

  /** What a new itinerary must meet beyond its dates. */
  ghost predicate NewItineraryOk(req: Request, pool: seq<Candidate>, t: Draft) {
    && (forall i | 0 <= i < |t.days| :: |t.days[i].activities| >= 2)
    && (forall k | 0 <= k < |AllSelected(t)| :: Verified(pool, AllSelected(t)[k]))
    && Distinct(PoiIds(AllSelected(t)))
    && forall id :: id in req.mustVisit ==> id in PoiIds(AllSelected(t))
  }

  ghost predicate Accepted(req: Request, pool: seq<Candidate>, t: Draft) {
    && DatesExact(req, Dates(t.days))
    && (forall i | 0 <= i < |t.days| :: |t.days[i].activities| <= 3)
    && (req.target.None? ==> NewItineraryOk(req, pool, t))
  }

  /** The defect of one activity that the error reports. */
  ghost predicate ActivityFault(a: Json, e: SchemaError) {
    match e
    case NotAnObject => !a.Obj?
    case NoPoiOrTitle => a.Obj? && !(NonEmptyStr(Get(a.fields, "poi_id")) && NonEmptyStr(Get(a.fields, "title")))
    case BadCost => a.Obj? && NormalizeCost(Get(a.fields, "estimated_cost")).None?
    case BadEventId => a.Obj? && !EventIdOk(Get(a.fields, "event_id"))
    case _ => false
  }

  /** The defect of one day that the error reports. */
  ghost predicate DayFault(cal: Calendar, req: Request, d: Json, e: SchemaError) {
    match e
    case MalformedDay => !(HasActivities(d) && Get(d.fields, "date").Str?)
    case BadDate => d.Obj? && Get(d.fields, "date").Str? && cal.parse(Get(d.fields, "date").s).None?
    case DateOutside =>
      && d.Obj? && Get(d.fields, "date").Str? && cal.parse(Get(d.fields, "date").s).Some?
      && !(req.start <= cal.parse(Get(d.fields, "date").s).value <= req.end)
    case TooFewActivities => req.target.None? && HasActivities(d) && |ActivitiesOf(d)| < 2
    case TooManyActivities => HasActivities(d) && |ActivitiesOf(d)| > 3
    case _ => exists j :: 0 <= j < |ActivitiesOf(d)| && ActivityFault(ActivitiesOf(d)[j], e)
  }

  /** The defect of the whole draft that the error reports. */
  ghost predicate Fault(cal: Calendar, req: Request, pool: seq<Candidate>, raw: Fields, e: SchemaError) {
    match e
    case NoTitleOrDays => !(NonBlankStr(Get(raw, "title")) && Get(raw, "days").Arr?)
    case DayCountMismatch => |DaysOf(raw)| != Expected(req)
    case DatesOutOfOrder => exists t :: IsDraft(cal, raw, t) && !DatesExact(req, Dates(t.days))
    case NotVerified =>
      exists t, k :: IsDraft(cal, raw, t) && req.target.None? && 0 <= k < |AllSelected(t)| && !Verified(pool, AllSelected(t)[k])
    case RepeatedPoi => exists t :: IsDraft(cal, raw, t) && req.target.None? && !Distinct(PoiIds(AllSelected(t)))
    case MustVisitMissing =>
      exists t, id :: IsDraft(cal, raw, t) && req.target.None? && id in req.mustVisit && id !in PoiIds(AllSelected(t))
    case _ => exists i :: 0 <= i < |DaysOf(raw)| && DayFault(cal, req, DaysOf(raw)[i], e)
  }

  method ParseActivity(a: Json) returns (r: Result<Activity, SchemaError>)
    ensures r.Success? ==> IsActivity(a, r.value)
    ensures r.Failure? ==> ActivityFault(a, r.error)
  {
    if !a.Obj? {
      return Failure(NotAnObject);
    }
    var poi, title := Get(a.fields, "poi_id"), Get(a.fields, "title");
    if !NonEmptyStr(poi) || !NonEmptyStr(title) {
      return Failure(NoPoiOrTitle);
    }
    var cost := NormalizeCost(Get(a.fields, "estimated_cost"));
    if cost.None? {
      return Failure(BadCost);
    }
    var event := Get(a.fields, "event_id");
    if event != Null && !NonEmptyStr(event) {
      return Failure(BadEventId);
    }
    return Success(Activity(poi.s, title.s, cost.value, if event == Null then None else Some(event.s)));
  }

  method ParseDay(cal: Calendar, req: Request, d: Json) returns (r: Result<Day, SchemaError>)
    ensures r.Success? ==> IsDay(cal, d, r.value) && req.start <= r.value.date <= req.end && |r.value.activities| <= 3
                           && (req.target.None? ==> |r.value.activities| >= 2)
    ensures r.Failure? ==> DayFault(cal, req, d, r.error) && !GlobalError(r.error)
  {
    if !HasActivities(d) || !Get(d.fields, "date").Str? {
      return Failure(MalformedDay);
    }
    var date := cal.parse(Get(d.fields, "date").s);
    if date.None? {
      return Failure(BadDate);
    }
    if !(req.start <= date.value <= req.end) {
      return Failure(DateOutside);
    }
    var items := ActivitiesOf(d);
    if |items| < 2 && req.target.None? {
      return Failure(TooFewActivities);
    }
    if |items| > 3 {
      return Failure(TooManyActivities);
    }
    var activities: seq<Activity> := [];
    for j := 0 to |items|
      invariant |activities| == j && forall k | 0 <= k < j :: IsActivity(items[k], activities[k])
    {
      var activity := ParseActivity(items[j]);
      if activity.Failure? {
        return Failure(activity.error);
      }
      activities := activities + [activity.value];
    }
    return Success(Day(date.value, activities));
  }

  /** Errors that only the whole draft can have. */
  predicate GlobalError(e: SchemaError) {
    e in {NoTitleOrDays, DayCountMismatch, DatesOutOfOrder, NotVerified, RepeatedPoi, MustVisitMissing}
  }

  /**
   Parses and checks a draft. It succeeds with the typed draft exactly if that is accepted,
   and otherwise reports a defect the draft has.
   */
  method ValidateSchema(cal: Calendar, req: Request, pool: seq<Candidate>, raw: Fields) returns (r: Result<Draft, SchemaError>)
    ensures r.Success? ==> IsDraft(cal, raw, r.value) && Accepted(req, pool, r.value)
    ensures r.Failure? ==> Fault(cal, req, pool, raw, r.error)
  {
    hide Strip, Blank;
    var title := Get(raw, "title");
    if !NonBlankStr(title) || !Get(raw, "days").Arr? {
      return Failure(NoTitleOrDays);
    }
    var days := DaysOf(raw);
    if |days| != Expected(req) {
      return Failure(DayCountMismatch);
    }
    var parsed: seq<Day> := [];
    for i := 0 to |days|
      invariant |parsed| == i && forall k | 0 <= k < i :: IsDay(cal, days[k], parsed[k])
      invariant forall k | 0 <= k < i :: |parsed[k].activities| <= 3 && (req.target.None? ==> |parsed[k].activities| >= 2)
    {
      var day := ParseDay(cal, req, days[i]);
      if day.Failure? {
        return Failure(day.error);
      }
      parsed := parsed + [day.value];
    }
    var draft := Draft(Strip(title.s), parsed);
    assert IsDraft(cal, raw, draft);
    hide IsDraft;
    var error := CheckDraft(req, pool, draft);
    if error.Some? {
      return Failure(error.value);
    }
    return Success(draft);
  }

  /** The checks on the typed draft. */
  method CheckDraft(req: Request, pool: seq<Candidate>, t: Draft) returns (error: Option<SchemaError>)
    requires |t.days| == Expected(req)
    requires forall i | 0 <= i < |t.days| :: |t.days[i].activities| <= 3 && (req.target.None? ==> |t.days[i].activities| >= 2)
    ensures error.None? ==> Accepted(req, pool, t)
    ensures error.Some? ==>
              match error.value
              case DatesOutOfOrder => !DatesExact(req, Dates(t.days))
              case NotVerified => req.target.None? && exists k :: 0 <= k < |AllSelected(t)| && !Verified(pool, AllSelected(t)[k])
              case RepeatedPoi => req.target.None? && !Distinct(PoiIds(AllSelected(t)))
              case MustVisitMissing => req.target.None? && exists id :: id in req.mustVisit && id !in PoiIds(AllSelected(t))
              case _ => false
  {
    var dates := Dates(t.days);
    if exists i :: 0 <= i < |dates| && dates[i] != req.start + i {
      return Some(DatesOutOfOrder);
    }
    if req.target.Some? {
      return None;
    }
    var selected := AllSelected(t);
    if exists k :: 0 <= k < |selected| && !Verified(pool, selected[k]) {
      return Some(NotVerified);
    }
    var ids := PoiIds(selected);
    var distinct := set id | id in ids;
    SetCountsDistinct(ids);
    if |distinct| != |ids| {
      return Some(RepeatedPoi);
    }
    if exists id :: id in req.mustVisit && id !in distinct {
      return Some(MustVisitMissing);
    }
    return None;
  }

  /** Comparing the size of the set with the length of the list is the test for repetition. */
  lemma {:induction false} SetCountsDistinct(ids: seq<string>)
    ensures |set id | id in ids| <= |ids|
    ensures |set id | id in ids| == |ids| <==> Distinct(ids)
  {
    if ids == [] {
      assert (set id | id in ids) == {};
    } else {
      var before, last := ids[..|ids| - 1], ids[|ids| - 1];
      SetCountsDistinct(before);
      DistinctOneMore(before, last);
      assert before + [last] == ids;
      assert (set id | id in ids) == (set id | id in before) + {last};
    }
  }

  /******* The check is exact *******/

  lemma ActivityIsUnique(a: Json, t: Activity, u: Activity)
    requires IsActivity(a, t) && IsActivity(a, u)
    ensures t == u
  {
  }

  lemma DraftIsUnique(cal: Calendar, raw: Fields, t: Draft, u: Draft)
    requires IsDraft(cal, raw, t) && IsDraft(cal, raw, u)
    ensures t == u
  {
    hide Strip, Blank;
    forall i | 0 <= i < |t.days|
      ensures t.days[i] == u.days[i]
    {
      assert IsDay(cal, DaysOf(raw)[i], t.days[i]) && IsDay(cal, DaysOf(raw)[i], u.days[i]);
      DayIsUnique(cal, DaysOf(raw)[i], t.days[i], u.days[i]);
    }
    assert t.days == u.days;
  }

  lemma DayIsUnique(cal: Calendar, d: Json, t: Day, u: Day)
    requires IsDay(cal, d, t) && IsDay(cal, d, u)
    ensures t == u
  {
    forall j | 0 <= j < |t.activities|
      ensures t.activities[j] == u.activities[j]
    {
      ActivityIsUnique(ActivitiesOf(d)[j], t.activities[j], u.activities[j]);
    }
    assert t.activities == u.activities;
  }

  /** A draft that can be accepted has no defect, so the check succeeds if and only if the draft is acceptable. */
  lemma AcceptedHasNoFault(cal: Calendar, req: Request, pool: seq<Candidate>, raw: Fields, t: Draft, e: SchemaError)
    requires IsDraft(cal, raw, t) && Accepted(req, pool, t)
    ensures !Fault(cal, req, pool, raw, e)
  {
    hide Strip, Blank, Verified;
    if GlobalError(e) {
      forall u | IsDraft(cal, raw, u)
        ensures u == t
      {
        DraftIsUnique(cal, raw, t, u);
      }
      hide IsDraft;
      assert e == NotVerified ==> forall k | 0 <= k < |AllSelected(t)| :: req.target.None? ==> Verified(pool, AllSelected(t)[k]);
    } else {
      forall i | 0 <= i < |DaysOf(raw)|
        ensures !DayFault(cal, req, DaysOf(raw)[i], e)
      {
        AcceptedDayHasNoFault(cal, req, DaysOf(raw)[i], t.days[i], e) by {
          assert Dates(t.days)[i] == req.start + i;
        }
      }
    }
  }

  lemma FaultExcludes(cal: Calendar, req: Request, pool: seq<Candidate>, raw: Fields, t: Draft, e: SchemaError)
    requires Fault(cal, req, pool, raw, e)
    ensures !(IsDraft(cal, raw, t) && Accepted(req, pool, t))
  {
    hide IsDraft, Accepted, Fault;
    if IsDraft(cal, raw, t) && Accepted(req, pool, t) {
      AcceptedHasNoFault(cal, req, pool, raw, t, e);
    }
  }

  lemma AcceptedDayHasNoFault(cal: Calendar, req: Request, d: Json, t: Day, e: SchemaError)
    requires IsDay(cal, d, t) && req.start <= t.date <= req.end && |t.activities| <= 3
    requires req.target.None? ==> |t.activities| >= 2
    ensures !DayFault(cal, req, d, e)
  {
    forall j | 0 <= j < |ActivitiesOf(d)|
      ensures !ActivityFault(ActivitiesOf(d)[j], e)
    {
      assert IsActivity(ActivitiesOf(d)[j], t.activities[j]);
    }
  }

  /******* The adapter's shape check and the schema check *******/

  lemma SameDayIds(cal: Calendar, d: Json, t: Day)
    requires IsDay(cal, d, t)
    ensures PoiIds(t.activities) == PoisOf(ActivitiesOf(d))
  {
    forall j | 0 <= j < |t.activities|
      ensures t.activities[j].poi == PoiOf(ActivitiesOf(d)[j])
    {
      assert IsActivity(ActivitiesOf(d)[j], t.activities[j]);
    }
  }

  lemma PoiIdsConcat(a: seq<Activity>, b: seq<Activity>)
    ensures PoiIds(a + b) == PoiIds(a) + PoiIds(b)
  {
  }

  /** The ids of the typed draft are those of the JSON draft. */
  lemma {:induction false} SameIds(cal: Calendar, days: seq<Json>, ts: seq<Day>, n: nat)
    requires AreDays(cal, days, ts) && n <= |days|
    ensures PoiIds(Selected(ts, n)) == AllPois(days, n)
  {
    hide IsDay, PoisOf;
    if n > 0 {
      SameIds(cal, days, ts, n - 1);
      SameDayIds(cal, days[n - 1], ts[n - 1]);
      PoiIdsConcat(Selected(ts, n - 1), ts[n - 1].activities);
      hide PoiIds;
    }
  }

  lemma ShapedDayVerified(cal: Calendar, pool: seq<Candidate>, d: Json, t: Day, j: nat)
    requires IsDay(cal, d, t) && DayShape(Allowed(pool), d) && Allowed(pool) != map[] && j < |t.activities|
    ensures Verified(pool, t.activities[j])
  {
    hide Allowed;
    assert IsActivity(ActivitiesOf(d)[j], t.activities[j]);
    assert ActivityShape(Allowed(pool), ActivitiesOf(d)[j]);
  }

  lemma {:induction false} SelectedVerified(cal: Calendar, pool: seq<Candidate>, days: seq<Json>, ts: seq<Day>, n: nat)
    requires AreDays(cal, days, ts) && n <= |days| && Allowed(pool) != map[]
    requires forall i | 0 <= i < |days| :: DayShape(Allowed(pool), days[i])
    ensures forall k | 0 <= k < |Selected(ts, n)| :: Verified(pool, Selected(ts, n)[k])
  {
    hide Allowed, Verified, IsDay, DayShape;
    if n > 0 {
      SelectedVerified(cal, pool, days, ts, n - 1);
      var last := ts[n - 1].activities;
      forall j | 0 <= j < |last|
        ensures Verified(pool, last[j])
      {
        ShapedDayVerified(cal, pool, days[n - 1], ts[n - 1], j);
      }
    }
  }

  lemma ShapedIsVerified(cal: Calendar, req: Request, pool: seq<Candidate>, raw: Fields, t: Draft)
    requires ShapeOk(raw, pool, DayCount(req)) && Allowed(pool) != map[] && IsDraft(cal, raw, t)
    ensures forall k | 0 <= k < |AllSelected(t)| :: Verified(pool, AllSelected(t)[k])
    ensures Distinct(PoiIds(AllSelected(t)))
  {
    hide Allowed, Strip, Blank, DayShape, IsDay, Verified, PoiIds, AllPois, Distinct;
    SelectedVerified(cal, pool, DaysOf(raw), t.days, |t.days|);
    SameIds(cal, DaysOf(raw), t.days, |t.days|);
  }

  lemma NotUnverified(cal: Calendar, req: Request, pool: seq<Candidate>, raw: Fields)
    requires ShapeOk(raw, pool, DayCount(req)) && Allowed(pool) != map[]
    ensures !Fault(cal, req, pool, raw, NotVerified)
  {
    hide Allowed, IsDraft, Distinct, Verified, NonBlankStr, DayShape, AllPois, ShapeOk, Selected;
    forall t | IsDraft(cal, raw, t)
      ensures forall k | 0 <= k < |AllSelected(t)| :: Verified(pool, AllSelected(t)[k])
    {
      ShapedIsVerified(cal, req, pool, raw, t);
    }
  }

  lemma NotRepeated(cal: Calendar, req: Request, pool: seq<Candidate>, raw: Fields)
    requires ShapeOk(raw, pool, DayCount(req)) && Allowed(pool) != map[]
    ensures !Fault(cal, req, pool, raw, RepeatedPoi)
  {
    hide Allowed, IsDraft, Distinct, Verified, NonBlankStr, DayShape, AllPois, ShapeOk, Selected;
    forall t | IsDraft(cal, raw, t)
      ensures Distinct(PoiIds(AllSelected(t)))
    {
      ShapedIsVerified(cal, req, pool, raw, t);
    }
  }

  lemma CountsAreRight(cal: Calendar, req: Request, pool: seq<Candidate>, raw: Fields)
    requires ShapeOk(raw, pool, DayCount(req))
    ensures !Fault(cal, req, pool, raw, NoTitleOrDays) && !Fault(cal, req, pool, raw, DayCountMismatch)
  {
    hide Allowed, DaysShape;
  }

  lemma LocalFault(cal: Calendar, req: Request, pool: seq<Candidate>, raw: Fields, e: SchemaError) returns (i: nat)
    requires Fault(cal, req, pool, raw, e) && !GlobalError(e)
    ensures i < |DaysOf(raw)| && DayFault(cal, req, DaysOf(raw)[i], e)
  {
    hide DayFault;
    i :| 0 <= i < |DaysOf(raw)| && DayFault(cal, req, DaysOf(raw)[i], e);
  }

  /**
   A draft for a new itinerary that the shape check accepts on a non-empty pool can be
   rejected by the schema check only for a date, a cost, an event id or a missing must-visit
   place: never for its day or activity counts, its titles or repeated places.
   */
  lemma ShapeLeavesFewFaults(cal: Calendar, req: Request, pool: seq<Candidate>, raw: Fields, e: SchemaError)
    requires ShapeOk(raw, pool, DayCount(req)) && pool != [] && req.target.None?
    requires Fault(cal, req, pool, raw, e)
    ensures e in {BadDate, DateOutside, DatesOutOfOrder, BadCost, BadEventId, MustVisitMissing}
  {
    assert InPool(pool, pool[0].poi);
    assert Allowed(pool) != map[];
    hide Allowed, DayFault, DayShape, Distinct, AllPois, Fault, NonBlankStr;
    if GlobalError(e) {
      CountsAreRight(cal, req, pool, raw);
      NotUnverified(cal, req, pool, raw);
      NotRepeated(cal, req, pool, raw);
    } else {
      var i := LocalFault(cal, req, pool, raw, e);
      ShapedDayFaults(cal, req, pool, DaysOf(raw)[i], e);
    }
  }

  lemma ShapedDayFaults(cal: Calendar, req: Request, pool: seq<Candidate>, d: Json, e: SchemaError)
    requires DayShape(Allowed(pool), d) && Allowed(pool) != map[] && !GlobalError(e) && DayFault(cal, req, d, e)
    ensures e in {BadDate, DateOutside, BadCost, BadEventId}
  {
    hide Allowed;
    forall j | 0 <= j < |ActivitiesOf(d)|
      ensures !ActivityFault(ActivitiesOf(d)[j], NotAnObject) && !ActivityFault(ActivitiesOf(d)[j], NoPoiOrTitle)
    {
      assert ActivityShape(Allowed(pool), ActivitiesOf(d)[j]);
    }
  }
}
