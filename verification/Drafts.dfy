/** The draft generator's adapter: titles are normalised to the candidate pool, then the draft's shape is checked. */
module Drafts {
  import opened Json
  import opened Sequences
  import opened Text
  import opened Wrappers

  /** A source of evidence, and a verified candidate of the pool. */
  /** A source: its chunk and document, and what else the review's models check of it. */
  datatype Citation = Citation(chunk: string, document: string, city: string, content: string, kind: string, source: string)
  datatype Candidate = Candidate(poi: string, name: string, city: string, source: Citation)

  predicate InPool(pool: seq<Candidate>, id: string) {
    exists k :: 0 <= k < |pool| && pool[k].poi == id
  }

  /** The pool as a dictionary from ids to names, in which later candidates win. */
  function Allowed(pool: seq<Candidate>): (allowed: map<string, string>)
    ensures forall id :: id in allowed <==> InPool(pool, id)
  {
    if pool == [] then map[]
    else
      var before, last := pool[..|pool| - 1], pool[|pool| - 1];
      assert forall id :: InPool(pool, id) <==> InPool(before, id) || last.poi == id by {
        forall id
          ensures InPool(pool, id) <==> InPool(before, id) || last.poi == id
        {
          if k :| 0 <= k < |pool| && pool[k].poi == id {
            assert k == |pool| - 1 || before[k].poi == id;
          }
        }
      }
      Allowed(before)[last.poi := last.name]
  }

  /** The name allowed for an id is that of the last candidate with this id. */
  lemma {:induction false} AllowedIsLast(pool: seq<Candidate>, k: nat)
    requires k < |pool| && forall j | k < j < |pool| :: pool[j].poi != pool[k].poi
    ensures pool[k].poi in Allowed(pool) && Allowed(pool)[pool[k].poi] == pool[k].name
  {
    if k < |pool| - 1 {
      AllowedIsLast(pool[..|pool| - 1], k);
    }
  }

  /******* Normalising titles *******/

  predicate HasPoi(a: Json) {
    a.Obj? && Get(a.fields, "poi_id").Str?
  }

  function PoiOf(a: Json): string {
    if HasPoi(a) then Get(a.fields, "poi_id").s else ""
  }

  function NormalizedActivity(allowed: map<string, string>, a: Json): Json {
    if HasPoi(a) && PoiOf(a) in allowed then Obj(a.fields["title" := Str(allowed[PoiOf(a)])]) else a
  }

  function NormalizedActivities(allowed: map<string, string>, items: seq<Json>): (r: seq<Json>)
    ensures |r| == |items|
  {
    seq(|items|, i requires 0 <= i < |items| => NormalizedActivity(allowed, items[i]))
  }

  predicate HasActivities(d: Json) {
    d.Obj? && Get(d.fields, "activities").Arr?
  }

  function ActivitiesOf(d: Json): seq<Json> {
    if HasActivities(d) then Get(d.fields, "activities").items else []
  }

  function NormalizedDay(allowed: map<string, string>, d: Json): Json {
    if HasActivities(d) then Obj(d.fields["activities" := Arr(NormalizedActivities(allowed, ActivitiesOf(d)))]) else d
  }

  function NormalizedDays(allowed: map<string, string>, days: seq<Json>): (r: seq<Json>)
    ensures |r| == |days|
  {
    seq(|days|, i requires 0 <= i < |days| => NormalizedDay(allowed, days[i]))
  }

  function Normalized(pool: seq<Candidate>, draft: Fields): Fields {
    if Allowed(pool) == map[] || !Get(draft, "days").Arr? then draft
    else draft["days" := Arr(NormalizedDays(Allowed(pool), Get(draft, "days").items))]
  }

  method NormalizeVerifiedCandidateTitles(draft: Fields, pool: seq<Candidate>) returns (normalized: Fields)
    ensures normalized == Normalized(pool, draft)
  {
    var allowed := Allowed(pool);
    if allowed == map[] {
      return draft;
    }
    normalized := draft;
    var days := Get(normalized, "days");
    if !days.Arr? {
      return;
    }
    var normalizedDays: seq<Json> := [];
    for i := 0 to |days.items|
      invariant normalizedDays == NormalizedDays(allowed, days.items)[..i]
    {
      var day := days.items[i];
      if HasActivities(day) {
        var activities := Get(day.fields, "activities").items;
        var normalizedActivities: seq<Json> := [];
        for j := 0 to |activities|
          invariant normalizedActivities == NormalizedActivities(allowed, activities)[..j]
        {
          var activity := activities[j];
          if HasPoi(activity) && PoiOf(activity) in allowed {
            activity := Obj(activity.fields["title" := Str(allowed[PoiOf(activity)])]);
          }
          normalizedActivities := normalizedActivities + [activity];
        }
        assert normalizedActivities == NormalizedActivities(allowed, activities);
        day := Obj(day.fields["activities" := Arr(normalizedActivities)]);
      }
      assert day == NormalizedDay(allowed, days.items[i]);
      normalizedDays := normalizedDays + [day];
    }
    assert normalizedDays == NormalizedDays(allowed, days.items);
    normalized := normalized["days" := Arr(normalizedDays)];
  }

  /** Normalising a second time changes nothing. */
  lemma NormalizeIdempotent(pool: seq<Candidate>, draft: Fields)
    ensures Normalized(pool, Normalized(pool, draft)) == Normalized(pool, draft)
  {
    var allowed := Allowed(pool);
    if allowed != map[] && Get(draft, "days").Arr? {
      var days := Get(draft, "days").items;
      var once := NormalizedDays(allowed, days);
      forall i | 0 <= i < |days|
        ensures NormalizedDay(allowed, once[i]) == once[i]
      {
        NormalizeDayIdempotent(allowed, days[i]);
      }
      assert NormalizedDays(allowed, once) == once;
    }
  }

  lemma NormalizeDayIdempotent(allowed: map<string, string>, d: Json)
    ensures NormalizedDay(allowed, NormalizedDay(allowed, d)) == NormalizedDay(allowed, d)
  {
    if HasActivities(d) {
      var once := NormalizedActivities(allowed, ActivitiesOf(d));
      forall j | 0 <= j < |once|
        ensures NormalizedActivity(allowed, once[j]) == once[j]
      {
        var a := ActivitiesOf(d)[j];
        if HasPoi(a) && PoiOf(a) in allowed {
          assert once[j].fields["title" := Str(allowed[PoiOf(a)])] == once[j].fields;
        }
      }
      assert NormalizedActivities(allowed, once) == once;
      assert ActivitiesOf(NormalizedDay(allowed, d)) == once;
    }
  }

  /** Only titles change: every other field of a day and of an activity, and the counts, stay. */
  lemma NormalizeKeeps(allowed: map<string, string>, d: Json, j: nat)
    requires j < |ActivitiesOf(d)|
    ensures var n := NormalizedDay(allowed, d);
            && |ActivitiesOf(n)| == |ActivitiesOf(d)|
            && (forall key | key != "activities" :: n.Obj? && d.Obj? && Get(n.fields, key) == Get(d.fields, key))
            && var a, b := ActivitiesOf(d)[j], ActivitiesOf(n)[j];
               && PoiOf(b) == PoiOf(a) && (a.Obj? <==> b.Obj?)
               && (a.Obj? ==> forall key | key != "title" :: Get(b.fields, key) == Get(a.fields, key))
  {
  }

  /** The activity copies an id and its title from the pool. */
  predicate CopiesPool(allowed: map<string, string>, a: Json) {
    HasPoi(a) && PoiOf(a) in allowed && Get(a.fields, "title") == Str(allowed[PoiOf(a)])
  }

  /** After normalisation the title check holds exactly when the id is in the pool. */
  lemma TitleCheckIsPoolCheck(pool: seq<Candidate>, a: Json)
    requires HasPoi(a)
    ensures CopiesPool(Allowed(pool), NormalizedActivity(Allowed(pool), a))
       <==> InPool(pool, PoiOf(a))
  {
    hide Allowed;
  }

  /******* The shape of a draft *******/

  datatype ShapeError = NoTitle | WrongDayCount | BadDay | WrongActivityCount | BadActivity | NotFromPool | Repeated

  predicate NonBlankStr(v: Json) {
    v.Str? && !Blank(v.s)
  }

  predicate ActivityShape(allowed: map<string, string>, a: Json) {
    && a.Obj? && NonBlankStr(Get(a.fields, "poi_id")) && NonBlankStr(Get(a.fields, "title"))
    && (allowed != map[] ==> CopiesPool(allowed, a))
  }

  predicate DayShape(allowed: map<string, string>, d: Json) {
    && HasActivities(d) && Get(d.fields, "date").Str?
    && (allowed != map[] ==> 2 <= |ActivitiesOf(d)| <= 3)
    && forall j | 0 <= j < |ActivitiesOf(d)| :: ActivityShape(allowed, ActivitiesOf(d)[j])
  }

  function PoisOf(items: seq<Json>): (ids: seq<string>)
    ensures |ids| == |items|
  {
    seq(|items|, i requires 0 <= i < |items| => PoiOf(items[i]))
  }

  lemma PoisAt(items: seq<Json>, j: nat)
    requires j < |items|
    ensures PoisOf(items)[j] == PoiOf(items[j])
  {
  }

  /** The ids of all activities of the first `n` days, in order. */
  function AllPois(days: seq<Json>, n: nat): seq<string>
    requires n <= |days|
  {
    if n == 0 then [] else AllPois(days, n - 1) + PoisOf(ActivitiesOf(days[n - 1]))
  }

  function DaysOf(draft: Fields): seq<Json> {
    if Get(draft, "days").Arr? then Get(draft, "days").items else []
  }

  ghost predicate DaysShape(allowed: map<string, string>, days: seq<Json>) {
    && (forall i | 0 <= i < |days| :: DayShape(allowed, days[i]))
    && (allowed != map[] ==> Distinct(AllPois(days, |days|)))
  }

  ghost predicate ShapeOk(draft: Fields, pool: seq<Candidate>, expected: int) {
    && NonBlankStr(Get(draft, "title")) && Get(draft, "days").Arr? && |DaysOf(draft)| == expected
    && DaysShape(Allowed(pool), DaysOf(draft))
  }

  /** The last candidate with the id has this name. */
  ghost predicate NamedInPool(pool: seq<Candidate>, id: string, name: string) {
    exists k :: 0 <= k < |pool| && pool[k].poi == id && pool[k].name == name && forall j | k < j < |pool| :: pool[j].poi != id
  }

  lemma {:induction false} AllowedMeans(pool: seq<Candidate>, id: string, name: string)
    ensures id in Allowed(pool) && Allowed(pool)[id] == name <==> NamedInPool(pool, id, name)
  {
    if InPool(pool, id) {
      var k := LastOf(pool, id);
      AllowedIsLast(pool, k);
      hide Allowed;
      assert pool[k].name == name ==> NamedInPool(pool, id, name);
    }
  }

  lemma {:induction false} LastOf(pool: seq<Candidate>, id: string) returns (k: nat)
    requires InPool(pool, id)
    ensures k < |pool| && pool[k].poi == id && forall j | k < j < |pool| :: pool[j].poi != id
  {
    k := |pool| - 1;
    while pool[k].poi != id
      invariant k < |pool| && forall j | k < j < |pool| :: pool[j].poi != id
      decreases k
    {
      k := k - 1;
    }
  }

  lemma NoPoolNoNames(pool: seq<Candidate>)
    ensures Allowed(pool) == map[] <==> pool == []
  {
    assert pool != [] ==> pool[0].poi in Allowed(pool);
  }

  /** An activity of the right shape, by its fields: id and title are not blank and, if there is a pool, copied from it. */
  lemma ActivityShapeMeans(pool: seq<Candidate>, a: Json)
    ensures ActivityShape(Allowed(pool), a) <==>
              && a.Obj?
              && "poi_id" in a.fields && a.fields["poi_id"].Str? && !Blank(a.fields["poi_id"].s)
              && "title" in a.fields && a.fields["title"].Str? && !Blank(a.fields["title"].s)
              && (pool != [] ==> NamedInPool(pool, a.fields["poi_id"].s, a.fields["title"].s))
  {
    NoPoolNoNames(pool);
    hide Allowed, NamedInPool, Blank;
    if a.Obj? && Get(a.fields, "poi_id").Str? && Get(a.fields, "title").Str? {
      AllowedMeans(pool, Get(a.fields, "poi_id").s, Get(a.fields, "title").s);
    }
  }

  lemma DayShapeMeans(pool: seq<Candidate>, d: Json)
    ensures DayShape(Allowed(pool), d) <==> DayFields(pool, d)
  {
    NoPoolNoNames(pool);
    hide Allowed, ActivityShape;
    if HasActivities(d) {
      assert ActivitiesOf(d) == d.fields["activities"].items;
    }
  }

  /** A day of the right shape, by its fields: a date and activities, two or three if there is a pool. */
  ghost predicate DayFields(pool: seq<Candidate>, d: Json) {
    && d.Obj? && "date" in d.fields && d.fields["date"].Str? && "activities" in d.fields && d.fields["activities"].Arr?
    && (pool != [] ==> 2 <= |d.fields["activities"].items| <= 3)
    && forall j | 0 <= j < |d.fields["activities"].items| :: ActivityShape(Allowed(pool), d.fields["activities"].items[j])
  }

  /**
   A draft of the right shape, by its fields: a title that is not blank, one day for each that is
   expected, each with a date and activities of the right shape; and if there is a pool, two or
   three of these a day, and no place twice.
   */
  lemma ShapeMeans(draft: Fields, pool: seq<Candidate>, expected: int)
    ensures ShapeOk(draft, pool, expected) <==>
              && "title" in draft && draft["title"].Str? && !Blank(draft["title"].s)
              && "days" in draft && draft["days"].Arr? && |draft["days"].items| == expected
              && (forall i | 0 <= i < |draft["days"].items| :: DayFields(pool, draft["days"].items[i]))
              && (pool != [] ==> Distinct(AllPois(draft["days"].items, |draft["days"].items|)))
  {
    NoPoolNoNames(pool);
    forall d
      ensures DayShape(Allowed(pool), d) <==> DayFields(pool, d)
    {
      DayShapeMeans(pool, d);
    }
    hide Allowed, Blank, DayShape, DayFields, AllPois, Distinct;
  }

  lemma {:induction false} AllPoisGrow(days: seq<Json>, m: nat, n: nat)
    requires m <= n <= |days|
    ensures AllPois(days, m) <= AllPois(days, n)
  {
    if m < n {
      AllPoisGrow(days, m, n - 1);
    }
  }

  /** A defect of one day, or of the ids up to it, is one of all days. */
  lemma DefectSpreads(allowed: map<string, string>, days: seq<Json>, i: nat)
    requires i < |days|
    requires !(DayShape(allowed, days[i]) && (allowed != map[] ==> Distinct(AllPois(days, i + 1))))
    ensures !DaysShape(allowed, days)
  {
    hide DayShape, Distinct;
    AllPoisGrow(days, i + 1, |days|);
    if !Distinct(AllPois(days, i + 1)) {
      RepetitionSpreads(AllPois(days, |days|), AllPois(days, i + 1));
    }
  }

  method ValidateDraftShape(draft: Fields, pool: seq<Candidate>, expected: int) returns (error: Option<ShapeError>)
    ensures error.None? <==> ShapeOk(draft, pool, expected)
  {
    hide NonBlankStr, Allowed, DaysShape;
    if !NonBlankStr(Get(draft, "title")) {
      return Some(NoTitle);
    }
    if !Get(draft, "days").Arr? || |DaysOf(draft)| != expected {
      return Some(WrongDayCount);
    }
    error := ValidateDays(DaysOf(draft), Allowed(pool));
  }

  method ValidateDays(days: seq<Json>, allowed: map<string, string>) returns (error: Option<ShapeError>)
    ensures error.None? <==> DaysShape(allowed, days)
  {
    error := None;
    var selected: set<string> := {};
    hide DayShape;
    for i := 0 to |days|
      invariant error.None? && forall k | 0 <= k < i :: DayShape(allowed, days[k])
      invariant forall id :: id in selected <==> id in AllPois(days, i)
      invariant allowed != map[] ==> Distinct(AllPois(days, i))
    {
      error, selected := ValidateDay(days, i, allowed, selected);
      if error.Some? {
        DefectSpreads(allowed, days, i);
        return;
      }
    }
  }

  /** One day of the check; `selected` are the ids seen on the days before. */
  method ValidateDay(days: seq<Json>, i: nat, allowed: map<string, string>, selected: set<string>)
    returns (error: Option<ShapeError>, seen: set<string>)
    requires i < |days| && (forall id :: id in selected <==> id in AllPois(days, i))
    requires allowed != map[] ==> Distinct(AllPois(days, i))
    ensures error.None? <==> DayShape(allowed, days[i]) && (allowed != map[] ==> Distinct(AllPois(days, i + 1)))
    ensures error.None? ==> forall id :: id in seen <==> id in AllPois(days, i + 1)
  {
    error, seen := None, selected;
    var day := days[i];
    if !HasActivities(day) || !Get(day.fields, "date").Str? {
      return Some(BadDay), seen;
    }
    var activities := ActivitiesOf(day);
    if allowed != map[] && !(2 <= |activities| <= 3) {
      return Some(WrongActivityCount), seen;
    }
    var before := AllPois(days, i);
    var ids := PoisOf(activities);
    assert AllPois(days, i + 1) == before + ids;
    assert before + ids[..0] == before;
    hide Distinct, NonBlankStr, AllPois, PoisOf;
    for j := 0 to |activities|
      invariant forall k | 0 <= k < j :: ActivityShape(allowed, activities[k])
      invariant forall id :: id in seen <==> id in before + ids[..j]
      invariant allowed != map[] ==> Distinct(before + ids[..j])
    {
      var activity := activities[j];
      if !activity.Obj? || !NonBlankStr(Get(activity.fields, "poi_id")) || !NonBlankStr(Get(activity.fields, "title")) {
        return Some(BadActivity), seen;
      }
      if allowed != map[] && !CopiesPool(allowed, activity) {
        return Some(NotFromPool), seen;
      }
      assert before + ids[..j + 1] == before + ids[..j] + [ids[j]];
      assert ids[j] == PoiOf(activity) by { PoisAt(activities, j); }
      DistinctOneMore(before + ids[..j], ids[j]);
      if allowed != map[] && PoiOf(activity) in seen {
        RepetitionSpreads(before + ids, before + ids[..j + 1]);
        return Some(Repeated), seen;
      }
      seen := seen + {PoiOf(activity)};
    }
    assert ids[..|activities|] == ids;
  }

  /******* The generator's retries *******/

  /** The answer, if there is one, with its titles normalised, if its shape is then right. */
  ghost predicate Usable(answer: Option<Fields>, pool: seq<Candidate>, expected: int) {
    answer.Some? && ShapeOk(Normalized(pool, answer.value), pool, expected)
  }

  /**
   Asks the model again after each unusable answer, up to `retries` times. `answers` are the
   completions it would give, none for a transport error or a completion that is no JSON
   object. The first usable answer is returned, and none only if all are unusable.
   */
  method Generate(answers: nat -> Option<Fields>, retries: nat, pool: seq<Candidate>, expected: int)
    returns (draft: Option<Fields>, attempt: nat)
    ensures attempt <= retries && forall k: nat | k < attempt :: !Usable(answers(k), pool, expected)
    ensures match draft
            case Some(fields) =>
              Usable(answers(attempt), pool, expected) && fields == Normalized(pool, answers(attempt).value)
            case None => attempt == retries && !Usable(answers(retries), pool, expected)
  {
    hide Normalized, ShapeOk;
    for n := 0 to retries + 1
      invariant forall k: nat | k < n :: !Usable(answers(k), pool, expected)
    {
      var answer := answers(n);
      if answer.Some? {
        var normalized := NormalizeVerifiedCandidateTitles(answer.value, pool);
        var error := ValidateDraftShape(normalized, pool, expected);
        if error.None? {
          return Some(normalized), n;
        }
      }
    }
    return None, retries;
  }
}
