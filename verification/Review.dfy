/** Verified drafts, and the controlled review of a draft against its evidence and route. */
module Review {
  import opened Drafts
  import opened Schema
  import opened Sequences
  import opened Text
  import opened Wrappers

  datatype Poi = Poi(id: string, city: string, longitude: real, latitude: real)
  datatype VerifiedActivity = VerifiedActivity(activity: Activity, poi: Poi)
  datatype VerifiedDay = VerifiedDay(date: int, activities: seq<VerifiedActivity>)
  datatype VerifiedDraft = VerifiedDraft(title: string, days: seq<VerifiedDay>)

  /** A prefecture-level code contains the codes of its districts, and a municipality's province code all of them. */
  predicate CityMatches(requested: string, adcode: string) {
    || requested == adcode
    || (|requested| == 6 && |adcode| == 6 && requested[4..] == "00"
        && (requested[..4] == adcode[..4]
            || (requested[..2] in {"11", "12", "31", "50"} && requested[..2] == adcode[..2])))
  }

  /** The first two characters of the codes of the four municipalities. */
  predicate Municipal(code: string) {
    |code| >= 2 && (code[0], code[1]) in {('1', '1'), ('1', '2'), ('3', '1'), ('5', '0')}
  }

  /** Both codes have six characters and the same first `n`. */
  predicate SameStart(a: string, b: string, n: nat) {
    |a| == 6 && |b| == 6 && forall i | 0 <= i < n && i < 6 :: a[i] == b[i]
  }

  /**
   When a place's code counts as the requested city's: it is that code, or the requested code is
   one of a whole city and the first four characters agree, or of a municipality and two do.
   */
  lemma CityMatchesExactly(requested: string, adcode: string)
    ensures CityMatches(requested, adcode) <==>
              || adcode == requested
              || (|requested| == 6 && requested[4] == '0' && requested[5] == '0'
                  && (SameStart(requested, adcode, 4) || (Municipal(requested) && SameStart(requested, adcode, 2))))
  {
    if |requested| == 6 && |adcode| == 6 {
      StartAgrees(requested, adcode, 4);
      StartAgrees(requested, adcode, 2);
      assert requested[4..] == "00" <==> requested[4] == '0' && requested[5] == '0' by {
        assert requested[4..][0] == requested[4] && requested[4..][1] == requested[5];
      }
      var two := requested[..2];
      assert two[0] == requested[0] && two[1] == requested[1];
      assert two in {"11", "12", "31", "50"} <==> Municipal(requested) by { TwoCharacters(two); }
    }
  }

  lemma StartAgrees(a: string, b: string, n: nat)
    requires n <= 6 && |a| == 6 && |b| == 6
    ensures SameStart(a, b, n) <==> a[..n] == b[..n]
  {
    if a[..n] == b[..n] {
      forall i | 0 <= i < n
        ensures a[i] == b[i]
      {
        assert a[..n][i] == b[..n][i];
      }
    }
  }

  lemma TwoCharacters(two: string)
    requires |two| == 2
    ensures two in {"11", "12", "31", "50"} <==> (two[0], two[1]) in {('1', '1'), ('1', '2'), ('3', '1'), ('5', '0')}
  {
    assert two == [two[0], two[1]];
  }

  /**
   So outside the municipalities no code of another city or province ever matches, a district's or
   otherwise narrow code matches itself only, and two whole cities match only if they are equal.
   */
  lemma OtherCitiesNeverMatch(requested: string, adcode: string)
    ensures !Municipal(requested) && adcode != requested && !SameStart(requested, adcode, 4) ==> !CityMatches(requested, adcode)
    ensures adcode != requested && !SameStart(requested, adcode, 2) ==> !CityMatches(requested, adcode)
    ensures !(|requested| == 6 && requested[4] == '0' && requested[5] == '0') ==> (CityMatches(requested, adcode) <==> adcode == requested)
    ensures !Municipal(requested) && |requested| == 6 && |adcode| == 6
            && requested[4] == '0' && requested[5] == '0' && adcode[4] == '0' && adcode[5] == '0' ==>
              (CityMatches(requested, adcode) <==> adcode == requested)
    ensures |requested| == 6 && requested[4] == '0' && requested[5] == '0' && SameStart(requested, adcode, 4) ==>
              CityMatches(requested, adcode)
  {
    CityMatchesExactly(requested, adcode);
    hide CityMatches, Municipal;
    if |requested| == 6 && |adcode| == 6 && SameStart(requested, adcode, 4)
       && requested[4] == '0' && requested[5] == '0' && adcode[4] == '0' && adcode[5] == '0' {
      assert forall i | 0 <= i < 4 :: requested[i] == adcode[i];
      assert adcode == [adcode[0], adcode[1], adcode[2], adcode[3], adcode[4], adcode[5]];
      assert requested == [requested[0], requested[1], requested[2], requested[3], requested[4], requested[5]];
    }
  }

  function Plain(activities: seq<VerifiedActivity>): (r: seq<Activity>)
    ensures |r| == |activities|
  {
    seq(|activities|, j requires 0 <= j < |activities| => activities[j].activity)
  }

  function PlainDays(days: seq<VerifiedDay>): (r: seq<Day>)
    ensures |r| == |days|
  {
    seq(|days|, i requires 0 <= i < |days| => Day(days[i].date, Plain(days[i].activities)))
  }

  /** The draft that was verified. */
  function DraftOf(v: VerifiedDraft): Draft {
    Draft(v.title, PlainDays(v.days))
  }

  /** Every activity carries a place in the requested city, with the id that was asked for. */
  ghost predicate PlacesOk(city: string, v: VerifiedDraft) {
    forall i, j | 0 <= i < |v.days| && 0 <= j < |v.days[i].activities| :: CityMatches(city, v.days[i].activities[j].poi.city)
  }

  ghost predicate SameIdsAsAsked(v: VerifiedDraft) {
    forall i, j | 0 <= i < |v.days| && 0 <= j < |v.days[i].activities| ::
      v.days[i].activities[j].poi.id == v.days[i].activities[j].activity.poi
  }

  /******* The review service *******/

  datatype Stop = Stop(poi: string, evidence: string)
  datatype PlannedDay = PlannedDay(date: int, stops: seq<Stop>)

  datatype ReviewRequest = ReviewRequest(
    city: string, start: int, end: int, itineraryCity: string, days: seq<PlannedDay>, evidence: set<string>, route: seq<string>)

  datatype Code = MissingEvidence | DuplicatePoi | RouteMismatch | CityMismatch | DateMismatch
  datatype Issue = Issue(code: Code, day: Option<int>, poi: Option<string>)

  predicate Reports(issues: seq<Issue>, code: Code) {
    exists k :: 0 <= k < |issues| && issues[k].code == code
  }

  function StopPois(stops: seq<Stop>): (ids: seq<string>)
    ensures |ids| == |stops|
  {
    seq(|stops|, j requires 0 <= j < |stops| => stops[j].poi)
  }

  function RoutePois(days: seq<PlannedDay>, n: nat): seq<string>
    requires n <= |days|
  {
    if n == 0 then [] else RoutePois(days, n - 1) + StopPois(days[n - 1].stops)
  }

  function DateRange(start: int, end: int): (dates: seq<int>)
    ensures |dates| == if end < start then 0 else end - start + 1
    ensures forall i | 0 <= i < |dates| :: dates[i] == start + i
  {
    seq(if end < start then 0 else end - start + 1, i => start + i)
  }

  ghost predicate OnDates(r: ReviewRequest) {
    && |r.days| == |DateRange(r.start, r.end)|
    && forall i | 0 <= i < |r.days| :: r.days[i].date == r.start + i
  }

  ghost predicate LacksEvidence(r: ReviewRequest, i: int, j: int) {
    0 <= i < |r.days| && 0 <= j < |r.days[i].stops| && r.days[i].stops[j].evidence !in r.evidence
  }

  predicate IsDuplicate(ids: seq<string>, id: string) {
    exists i, j :: 0 <= i < j < |ids| && ids[i] == id && ids[j] == id
  }

  function DateSeq(days: seq<PlannedDay>): (dates: seq<int>)
    ensures |dates| == |days|
  {
    seq(|days|, i requires 0 <= i < |days| => days[i].date)
  }

  lemma SameDates(r: ReviewRequest)
    ensures DateSeq(r.days) == DateRange(r.start, r.end) <==> OnDates(r)
  {
    if DateSeq(r.days) == DateRange(r.start, r.end) {
      forall i | 0 <= i < |r.days|
        ensures r.days[i].date == r.start + i
      {
        assert DateSeq(r.days)[i] == DateRange(r.start, r.end)[i];
      }
    }
  }

  function MissingIssue(r: ReviewRequest, i: int, j: int): Issue
    requires 0 <= i < |r.days| && 0 <= j < |r.days[i].stops|
  {
    Issue(MissingEvidence, Some(r.days[i].date), Some(r.days[i].stops[j].poi))
  }

  /** The issues for the first `n` stops of a day. */
  function MissingInDay(r: ReviewRequest, i: nat, n: nat): seq<Issue>
    requires i < |r.days| && n <= |r.days[i].stops|
  {
    if n == 0 then []
    else MissingInDay(r, i, n - 1) + if r.days[i].stops[n - 1].evidence !in r.evidence then [MissingIssue(r, i, n - 1)] else []
  }

  function MissingIssues(r: ReviewRequest, n: nat): seq<Issue>
    requires n <= |r.days|
  {
    if n == 0 then [] else MissingIssues(r, n - 1) + MissingInDay(r, n - 1, |r.days[n - 1].stops|)
  }

  /** They name exactly the stops that lack evidence. */
  lemma {:induction false} MissingInDayExactly(r: ReviewRequest, i: nat, n: nat)
    requires i < |r.days| && n <= |r.days[i].stops|
    ensures forall issue :: issue in MissingInDay(r, i, n)
                       <==> exists j :: j < n && LacksEvidence(r, i, j) && issue == MissingIssue(r, i, j)
  {
    if n > 0 {
      MissingInDayExactly(r, i, n - 1);
      assert LacksEvidence(r, i, n - 1) <==> r.days[i].stops[n - 1].evidence !in r.evidence;
      assert forall j :: j < n && LacksEvidence(r, i, j) <==> (j < n - 1 || j == n - 1) && LacksEvidence(r, i, j);
    }
  }

  lemma {:induction false} MissingExactly(r: ReviewRequest, n: nat)
    requires n <= |r.days|
    ensures forall issue :: issue in MissingIssues(r, n)
                       <==> exists i, j :: i < n && LacksEvidence(r, i, j) && issue == MissingIssue(r, i, j)
  {
    hide MissingInDay;
    if n > 0 {
      MissingExactly(r, n - 1);
      MissingInDayExactly(r, n - 1, |r.days[n - 1].stops|);
      forall issue
        ensures issue in MissingIssues(r, n)
           <==> exists i, j :: i < n && LacksEvidence(r, i, j) && issue == MissingIssue(r, i, j)
      {
        if issue in MissingInDay(r, n - 1, |r.days[n - 1].stops|) {
          var j :| LacksEvidence(r, n - 1, j) && issue == MissingIssue(r, n - 1, j);
        }
        if i, j :| i < n && LacksEvidence(r, i, j) && issue == MissingIssue(r, i, j) {
          assert i < n - 1 || i == n - 1;
        }
      }
    }
  }

  /** The stops of one day, with the issues for those that lack evidence. */
  method ReviewDay(r: ReviewRequest, i: nat) returns (ids: seq<string>, issues: seq<Issue>)
    requires i < |r.days|
    ensures ids == StopPois(r.days[i].stops) && issues == MissingInDay(r, i, |r.days[i].stops|)
  {
    ids, issues := [], [];
    var day := r.days[i];
    for j := 0 to |day.stops|
      invariant ids == StopPois(day.stops)[..j] && issues == MissingInDay(r, i, j)
    {
      var stop := day.stops[j];
      ids := ids + [stop.poi];
      if stop.evidence !in r.evidence {
        issues := issues + [Issue(MissingEvidence, Some(day.date), Some(stop.poi))];
      }
    }
  }

  /** All stops in order, with the issues for those that lack evidence. */
  method ReviewDays(r: ReviewRequest) returns (ids: seq<string>, missing: seq<Issue>)
    ensures ids == RoutePois(r.days, |r.days|) && missing == MissingIssues(r, |r.days|)
  {
    hide MissingInDay;
    ids, missing := [], [];
    for i := 0 to |r.days|
      invariant ids == RoutePois(r.days, i) && missing == MissingIssues(r, i)
    {
      var dayIds, dayIssues := ReviewDay(r, i);
      ids := ids + dayIds;
      missing := missing + dayIssues;
    }
  }

  /** The ids that occur more than once, in ascending order. */
  ghost predicate AreRepeated(ids: seq<string>, repeated: seq<string>) {
    Ascending(repeated) && forall id :: id in repeated <==> IsDuplicate(ids, id)
  }

  function RepeatedIssues(repeated: seq<string>): (issues: seq<Issue>)
    ensures |issues| == |repeated|
  {
    seq(|repeated|, k requires 0 <= k < |repeated| => Issue(DuplicatePoi, None, Some(repeated[k])))
  }

  function CityIssues(r: ReviewRequest): seq<Issue> {
    if r.itineraryCity != r.city then [Issue(CityMismatch, None, None)] else []
  }

  ghost function DateIssues(r: ReviewRequest): seq<Issue> {
    if OnDates(r) then [] else [Issue(DateMismatch, None, None)]
  }

  function RouteIssues(r: ReviewRequest): seq<Issue> {
    if r.route != RoutePois(r.days, |r.days|) then [Issue(RouteMismatch, None, None)] else []
  }

  /**
   The issues of a review: a wrong city, wrong dates, each stop without evidence in order, each
   repeated place in ascending order, and a route that is not the stops.
   */
  ghost predicate IsReview(r: ReviewRequest, issues: seq<Issue>) {
    exists repeated ::
      && AreRepeated(RoutePois(r.days, |r.days|), repeated)
      && issues == CityIssues(r) + DateIssues(r) + MissingIssues(r, |r.days|) + RepeatedIssues(repeated) + RouteIssues(r)
  }

  lemma ReviewIsUnique(r: ReviewRequest, a: seq<Issue>, b: seq<Issue>)
    requires IsReview(r, a) && IsReview(r, b)
    ensures a == b
  {
    hide RoutePois, IsDuplicate, Ascending, MissingIssues, OnDates;
    var ids := RoutePois(r.days, |r.days|);
    var x :| AreRepeated(ids, x)
             && a == CityIssues(r) + DateIssues(r) + MissingIssues(r, |r.days|) + RepeatedIssues(x) + RouteIssues(r);
    var y :| AreRepeated(ids, y)
             && b == CityIssues(r) + DateIssues(r) + MissingIssues(r, |r.days|) + RepeatedIssues(y) + RouteIssues(r);
    AscendingIsUnique(x, y);
  }

  /** The issues report each kind of defect exactly if the itinerary has it. */
  ghost predicate ReportsDefects(r: ReviewRequest, issues: seq<Issue>) {
    && (Reports(issues, CityMismatch) <==> r.itineraryCity != r.city)
    && (Reports(issues, DateMismatch) <==> !OnDates(r))
    && (Reports(issues, MissingEvidence) <==> exists i, j :: LacksEvidence(r, i, j))
    && (Reports(issues, DuplicatePoi) <==> !Distinct(RoutePois(r.days, |r.days|)))
    && (Reports(issues, RouteMismatch) <==> r.route != RoutePois(r.days, |r.days|))
  }

  lemma ReviewReportsDefects(r: ReviewRequest, issues: seq<Issue>)
    requires IsReview(r, issues)
    ensures ReportsDefects(r, issues)
  {
    hide Reports, OnDates, RoutePois, MissingIssues, LacksEvidence, IsDuplicate, Distinct, Ascending;
    var ids, missing := RoutePois(r.days, |r.days|), MissingIssues(r, |r.days|);
    var repeated :| AreRepeated(ids, repeated)
                    && issues == CityIssues(r) + DateIssues(r) + missing + RepeatedIssues(repeated) + RouteIssues(r);
    MissingReports(r);
    SomeRepeated(ids, repeated);
    OnlyReports(CityIssues(r), CityMismatch);
    OnlyReports(DateIssues(r), DateMismatch);
    OnlyReports(missing, MissingEvidence);
    OnlyReports(RepeatedIssues(repeated), DuplicatePoi);
    OnlyReports(RouteIssues(r), RouteMismatch);
    ReportsParts(CityIssues(r), DateIssues(r), missing, RepeatedIssues(repeated), RouteIssues(r));
  }

  lemma MissingReports(r: ReviewRequest)
    ensures var missing := MissingIssues(r, |r.days|);
            && (forall k | 0 <= k < |missing| :: missing[k].code == MissingEvidence)
            && (missing != [] <==> exists i, j :: LacksEvidence(r, i, j))
  {
    hide MissingIssues;
    var missing := MissingIssues(r, |r.days|);
    MissingExactly(r, |r.days|);
    forall k | 0 <= k < |missing|
      ensures missing[k].code == MissingEvidence && exists i, j :: LacksEvidence(r, i, j)
    {
      assert missing[k] in missing;
    }
    if missing != [] {
      assert missing[0].code == MissingEvidence;
    }
    if i, j :| LacksEvidence(r, i, j) {
      assert MissingIssue(r, i, j) in missing;
    }
  }

  lemma SomeRepeated(ids: seq<string>, repeated: seq<string>)
    requires AreRepeated(ids, repeated)
    ensures repeated != [] <==> !Distinct(ids)
  {
    hide Ascending;
    if repeated != [] {
      assert repeated[0] in repeated;
    }
    if !Distinct(ids) {
      var i, j :| 0 <= i < j < |ids| && ids[i] == ids[j];
      assert IsDuplicate(ids, ids[i]);
    }
  }

  /** Reviews an itinerary: the list of issues is the review of the request. */
  method ReviewItinerary(r: ReviewRequest) returns (approved: bool, issues: seq<Issue>)
    ensures approved <==> issues == []
    ensures IsReview(r, issues)
  {
    hide RoutePois, OnDates, MissingIssues, AreRepeated, RepeatedIssues;
    var city: seq<Issue> := if r.itineraryCity != r.city then [Issue(CityMismatch, None, None)] else [];
    var dates: seq<Issue> := if DateSeq(r.days) != DateRange(r.start, r.end) then [Issue(DateMismatch, None, None)] else [];
    SameDates(r);
    var ids, missing := ReviewDays(r);
    ghost var repeated;
    var duplicates;
    duplicates, repeated := DuplicateIssues(ids);
    var route: seq<Issue> := if r.route != ids then [Issue(RouteMismatch, None, None)] else [];
    issues := city + dates + missing + duplicates + route;
    approved := issues == [];
  }

  lemma OnlyReports(issues: seq<Issue>, code: Code)
    requires forall k | 0 <= k < |issues| :: issues[k].code == code
    ensures forall c :: Reports(issues, c) <==> issues != [] && c == code
  {
    if issues != [] {
      assert issues[0].code == code;
    }
  }

  lemma ReportsParts(a: seq<Issue>, b: seq<Issue>, c: seq<Issue>, d: seq<Issue>, e: seq<Issue>)
    ensures forall code ::
              Reports(a + b + c + d + e, code)
              <==> Reports(a, code) || Reports(b, code) || Reports(c, code) || Reports(d, code) || Reports(e, code)
  {
    forall code, x: seq<Issue>, y: seq<Issue>
      ensures Reports(x + y, code) <==> Reports(x, code) || Reports(y, code)
    {
      ReportsConcat(x, y, code);
    }
  }

  lemma ReportsConcat(x: seq<Issue>, y: seq<Issue>, code: Code)
    ensures Reports(x + y, code) <==> Reports(x, code) || Reports(y, code)
  {
    if k :| 0 <= k < |x| && x[k].code == code {
      assert (x + y)[k].code == code;
    }
    if k :| 0 <= k < |y| && y[k].code == code {
      assert (x + y)[|x| + k].code == code;
    }
  }

  predicate IsLeast(ids: set<string>, id: string) {
    forall other | other in ids :: other == id || Less(id, other)
  }

  ghost predicate AllBefore(ids: seq<string>, left: set<string>) {
    forall id, other | id in ids && other in left :: Less(id, other)
  }

  lemma NextLeast(ids: seq<string>, left: set<string>, id: string)
    requires Ascending(ids) && AllBefore(ids, left) && id in left && IsLeast(left, id)
    ensures Ascending(ids + [id]) && AllBefore(ids + [id], left - {id})
  {
    hide Less;
    assert forall k | 0 <= k < |ids| :: ids[k] in ids;
    forall x, other | x in ids + [id] && other in left - {id}
      ensures Less(x, other)
    {
      assert x in ids || x == id;
    }
  }

  /** One issue for each id that occurs more than once, the ids in ascending order. */
  method DuplicateIssues(ids: seq<string>) returns (issues: seq<Issue>, ghost repeated: seq<string>)
    ensures AreRepeated(ids, repeated) && issues == RepeatedIssues(repeated)
  {
    hide Less;
    issues, repeated := [], [];
    var left := set id | id in ids && IsDuplicate(ids, id);
    assert forall id :: id in left <==> IsDuplicate(ids, id);
    hide IsDuplicate;
    while left != {}
      invariant Ascending(repeated) && AllBefore(repeated, left)
      invariant forall id :: id in repeated || id in left <==> IsDuplicate(ids, id)
      invariant issues == RepeatedIssues(repeated)
      decreases |left|
    {
      ghost var least := LeastExists(left);
      assert IsLeast(left, least);
      var id :| id in left && IsLeast(left, id);
      ghost var before := repeated;
      NextLeast(repeated, left, id);
      left := left - {id};
      issues := issues + [Issue(DuplicatePoi, None, Some(id))];
      repeated := repeated + [id];
      assert forall x :: x in repeated <==> x in before || x == id;
    }
  }

  /******* The retrieved evidence *******/

  predicate Precedes(docs: seq<Citation>, city: string, j: int, i: int) {
    && 0 <= j < |docs| && 0 <= i < |docs| && docs[j].city == city
    && (Less(docs[j].chunk, docs[i].chunk) || (docs[j].chunk == docs[i].chunk && j < i))
  }

  function Rank(docs: seq<Citation>, city: string, i: int): nat {
    |set j | 0 <= j < |docs| && Precedes(docs, city, j, i)|
  }

  /** The chunks of the documents of the city, the first `limit` of them in the order of their ids. */
  function Evidence(docs: seq<Citation>, city: string, limit: nat): set<string> {
    set i | 0 <= i < |docs| && docs[i].city == city && Rank(docs, city, i) < limit :: docs[i].chunk
  }

  /** All documents that carry the chunk belong to other cities. */
  ghost predicate OnlyElsewhere(docs: seq<Citation>, chunk: string, city: string) {
    forall k | 0 <= k < |docs| && docs[k].chunk == chunk :: docs[k].city != city
  }

  /** A chunk that only documents of other cities carry is never retrieved. */
  lemma ForeignIsNotRetrieved(docs: seq<Citation>, city: string, limit: nat, chunk: string)
    requires OnlyElsewhere(docs, chunk, city)
    ensures chunk !in Evidence(docs, city, limit)
  {
    hide Rank;
  }

  /** The documents of the city, and those of them that come before a chunk. */
  function OfCity(docs: seq<Citation>, city: string): set<int> {
    set k | 0 <= k < |docs| && docs[k].city == city
  }

  function OfCityBefore(docs: seq<Citation>, city: string, chunk: string): set<int> {
    set k | 0 <= k < |docs| && docs[k].city == city && Less(docs[k].chunk, chunk)
  }

  lemma RankBound(docs: seq<Citation>, city: string, i: nat)
    requires i < |docs|
    ensures Rank(docs, city, i) <= |OfCity(docs, city) - {i}| < |docs|
  {
    var earlier := set j | 0 <= j < |docs| && Precedes(docs, city, j, i);
    LessIrreflexive(docs[i].chunk);
    SubsetSize(earlier, OfCity(docs, city) - {i});
    assert OfCity(docs, city) - {i} <= UpTo(|docs|) - {i};
    SubsetSize(OfCity(docs, city) - {i}, UpTo(|docs|) - {i});
  }

  /** If there are no more documents of the city than the limit, all of them are retrieved. */
  lemma FewAreAllRetrieved(docs: seq<Citation>, city: string, limit: nat, i: nat)
    requires i < |docs| && docs[i].city == city && |OfCity(docs, city)| <= limit
    ensures docs[i].chunk in Evidence(docs, city, limit)
  {
    RankBound(docs, city, i);
    hide Rank;
  }

  /**
   A document of the city whose chunk no other document carries is retrieved exactly if fewer
   documents of the city than the limit come before it in the order of their chunks; documents of
   other cities do not count.
   */
  lemma EarlyIsRetrieved(docs: seq<Citation>, city: string, limit: nat, i: nat)
    requires i < |docs| && docs[i].city == city
    requires forall k | 0 <= k < |docs| && docs[k].chunk == docs[i].chunk :: k == i
    ensures docs[i].chunk in Evidence(docs, city, limit) <==> |OfCityBefore(docs, city, docs[i].chunk)| < limit
  {
    hide Less;
    assert OfCityBefore(docs, city, docs[i].chunk) == set j | 0 <= j < |docs| && Precedes(docs, city, j, i);
    hide Precedes, OfCityBefore;
  }

  function UpTo(n: nat): (r: set<int>)
    ensures |r| == n && forall j :: j in r <==> 0 <= j < n
  {
    if n == 0 then {} else UpTo(n - 1) + {n - 1}
  }

  lemma SubsetSize(a: set<int>, b: set<int>)
    requires a <= b
    ensures |a| <= |b|
  {
    var rest := b - a;
    assert b == a + rest && a !! rest;
  }

  /******* The review request built from a verified draft *******/

  datatype BuildError = NoDocuments | InvalidField

  const RETRIEVAL_LIMIT := 20

  /** A candidate's source, in the candidate's city; its name stands in for a missing content. */
  function SourceOf(candidate: Candidate): Citation {
    var source := candidate.source;
    source.(city := candidate.city, content := if source.content == "" then candidate.name else source.content)
  }

  /** The citations, or the sources of the candidates if there are none. */
  function Documents(citations: seq<Citation>, pool: seq<Candidate>): (docs: seq<Citation>) {
    if citations != [] then citations else seq(|pool|, k requires 0 <= k < |pool| => SourceOf(pool[k]))
  }

  /** The request's models strip white space from every string. */
  function Stripped(docs: seq<Citation>): (r: seq<Citation>)
    ensures |r| == |docs|
  {
    seq(|docs|, k requires 0 <= k < |docs| => docs[k].(chunk := Strip(docs[k].chunk), city := Strip(docs[k].city)))
  }

  /** The source chunk of the last candidate with the id, or the fallback. */
  function EvidenceFor(pool: seq<Candidate>, id: string, fallback: string): string {
    if pool == [] then fallback
    else if pool[|pool| - 1].poi == id then pool[|pool| - 1].source.chunk
    else EvidenceFor(pool[..|pool| - 1], id, fallback)
  }

  function Stops(activities: seq<VerifiedActivity>, pool: seq<Candidate>, fallback: string): (r: seq<Stop>)
    ensures |r| == |activities|
  {
    seq(|activities|, j requires 0 <= j < |activities| =>
      Stop(Strip(activities[j].poi.id), Strip(EvidenceFor(pool, activities[j].poi.id, fallback))))
  }

  function PlannedDays(days: seq<VerifiedDay>, pool: seq<Candidate>, fallback: string): (r: seq<PlannedDay>)
    ensures |r| == |days|
  {
    seq(|days|, i requires 0 <= i < |days| => PlannedDay(days[i].date, Stops(days[i].activities, pool, fallback)))
  }

  /** All places of the draft in order, and the route through them. */
  function AllPlaces(days: seq<VerifiedDay>, n: nat): seq<VerifiedActivity>
    requires n <= |days|
  {
    if n == 0 then [] else AllPlaces(days, n - 1) + days[n - 1].activities
  }

  function Route(places: seq<VerifiedActivity>): (ids: seq<string>)
    ensures |ids| == |places|
  {
    seq(|places|, k requires 0 <= k < |places| => Strip(places[k].poi.id))
  }

  /** What is left of a string when it is stripped has 1 to `max` characters. */
  predicate Sized(s: string, max: nat) {
    1 <= |Strip(s)| <= max
  }

  predicate CodeChar(c: char) {
    'a' <= c <= 'z' || 'A' <= c <= 'Z' || '0' <= c <= '9' || c == '_' || c == '-'
  }

  predicate DocumentOk(d: Citation) {
    && Sized(d.chunk, 128) && Sized(d.document, 128) && Sized(d.city, 32) && Sized(d.content, 10000)
    && Sized(d.kind, 64) && Sized(d.source, 128)
  }

  predicate ContextOk(req: Request) {
    Sized(req.user, 128) && Sized(req.city, 32) && forall k | 0 <= k < |Strip(req.city)| :: CodeChar(Strip(req.city)[k])
  }

  /** A place as a planning candidate and as a point of the map. */
  predicate PlaceOk(place: VerifiedActivity, evidence: string) {
    && Sized(place.poi.id, 128) && Sized(place.activity.title, 200) && Sized(place.poi.city, 32) && Sized(evidence, 128)
    && -180.0 <= place.poi.longitude <= 180.0 && -90.0 <= place.poi.latitude <= 90.0
  }

  predicate PlacesFit(places: seq<VerifiedActivity>, pool: seq<Candidate>, fallback: string) {
    && 1 <= |places| <= 42
    && forall k | 0 <= k < |places| :: PlaceOk(places[k], EvidenceFor(pool, places[k].poi.id, fallback))
  }

  /** The conditions that the review's models put on their fields. */
  predicate FieldsOk(req: Request, v: VerifiedDraft, docs: seq<Citation>, pool: seq<Candidate>)
    requires docs != []
  {
    && (forall k | 0 <= k < |docs| :: DocumentOk(docs[k]))
    && ContextOk(req) && Sized(req.prompt, 2000) && 1 <= DayCount(req) <= 7
    && PlacesFit(AllPlaces(v.days, |v.days|), pool, Strip(docs[0].chunk))
  }

  function BuildReview(req: Request, v: VerifiedDraft, citations: seq<Citation>, pool: seq<Candidate>)
    : Result<ReviewRequest, BuildError>
  {
    var docs := Documents(citations, pool);
    if docs == [] then Failure(NoDocuments)
    else if !FieldsOk(req, v, docs, pool) then Failure(InvalidField)
    else
      var city, retrieved := Strip(req.city), Stripped(docs);
      var limit := if |docs| < RETRIEVAL_LIMIT then |docs| else RETRIEVAL_LIMIT;
      Success(ReviewRequest(city, req.start, req.end, city, PlannedDays(v.days, pool, retrieved[0].chunk),
                            Evidence(retrieved, city, limit), Route(AllPlaces(v.days, |v.days|))))
  }

  /** What the review draws on: the citations, or else each candidate's source under the candidate's city. */
  lemma DocumentsAre(citations: seq<Citation>, pool: seq<Candidate>)
    ensures citations != [] ==> Documents(citations, pool) == citations
    ensures citations == [] ==>
              && |Documents(citations, pool)| == |pool|
              && forall k | 0 <= k < |pool| ::
                   var d, c := Documents(citations, pool)[k], pool[k];
                   && d.chunk == c.source.chunk && d.document == c.source.document && d.city == c.city
                   && d.content == (if c.source.content != "" then c.source.content else c.name)
                   && d.kind == c.source.kind && d.source == c.source.source
  {
  }

  /**
   Exactly when a review request is built: there are documents, and every string that is left
   after stripping has at least one character and no more than its field holds, the city is of
   letters, digits, hyphens and underscores, the request has one to seven days, and there are 1 to 42 places within the map.
   */
  lemma BuiltExactly(req: Request, v: VerifiedDraft, citations: seq<Citation>, pool: seq<Candidate>)
    ensures BuildReview(req, v, citations, pool).Success? <==>
              var docs, places := Documents(citations, pool), AllPlaces(v.days, |v.days|);
              && docs != []
              && (forall k | 0 <= k < |docs| ::
                    && 1 <= |Strip(docs[k].chunk)| <= 128 && 1 <= |Strip(docs[k].document)| <= 128
                    && 1 <= |Strip(docs[k].city)| <= 32 && 1 <= |Strip(docs[k].content)| <= 10000
                    && 1 <= |Strip(docs[k].kind)| <= 64 && 1 <= |Strip(docs[k].source)| <= 128)
              && 1 <= |Strip(req.user)| <= 128 && 1 <= |Strip(req.city)| <= 32 && 1 <= |Strip(req.prompt)| <= 2000
              && (forall k | 0 <= k < |Strip(req.city)| ::
                    var n := Strip(req.city)[k] as int; 48 <= n <= 57 || 65 <= n <= 90 || 97 <= n <= 122 || n == 45 || n == 95)
              && req.start <= req.end < req.start + 7
              && 1 <= |places| <= 42
              && forall k | 0 <= k < |places| ::
                   && 1 <= |Strip(places[k].poi.id)| <= 128 && 1 <= |Strip(places[k].activity.title)| <= 200
                   && 1 <= |Strip(places[k].poi.city)| <= 32
                   && 1 <= |Strip(EvidenceFor(pool, places[k].poi.id, Strip(docs[0].chunk)))| <= 128
                   && -180.0 <= places[k].poi.longitude <= 180.0 && -90.0 <= places[k].poi.latitude <= 90.0
  {
    hide Strip, EvidenceFor, AllPlaces, Evidence, PlannedDays, Route, Documents;
  }

  lemma {:induction false} RouteIsStops(days: seq<VerifiedDay>, pool: seq<Candidate>, fallback: string, n: nat)
    requires n <= |days|
    ensures RoutePois(PlannedDays(days, pool, fallback), n) == Route(AllPlaces(days, n))
  {
    if n > 0 {
      RouteIsStops(days, pool, fallback, n - 1);
      var today := days[n - 1].activities;
      assert StopPois(PlannedDays(days, pool, fallback)[n - 1].stops) == Route(today);
      RouteConcat(AllPlaces(days, n - 1), today);
    }
  }

  lemma RouteConcat(a: seq<VerifiedActivity>, b: seq<VerifiedActivity>)
    ensures Route(a + b) == Route(a) + Route(b)
  {
    hide Strip;
  }

  function StripAll(ids: seq<string>): (r: seq<string>)
    ensures |r| == |ids|
  {
    seq(|ids|, k requires 0 <= k < |ids| => Strip(ids[k]))
  }

  lemma RouteOfDay(places: seq<VerifiedActivity>)
    requires forall j | 0 <= j < |places| :: places[j].poi.id == places[j].activity.poi
    ensures Route(places) == StripAll(PoiIds(Plain(places)))
  {
    hide Strip;
  }

  lemma {:induction false} PlacesArePois(days: seq<VerifiedDay>, n: nat)
    requires n <= |days|
    requires forall i, j | 0 <= i < n && 0 <= j < |days[i].activities| ::
               days[i].activities[j].poi.id == days[i].activities[j].activity.poi
    ensures Route(AllPlaces(days, n)) == StripAll(PoiIds(Selected(PlainDays(days), n)))
  {
    hide Strip, Route, StripAll, PoiIds;
    assert Plain([]) == [];
    hide Plain;
    if n == 0 {
      RouteOfDay([]);
    } else {
      PlacesArePois(days, n - 1);
      var today, before := days[n - 1].activities, Selected(PlainDays(days), n - 1);
      RouteConcat(AllPlaces(days, n - 1), today);
      PoiIdsConcat(before, Plain(today));
      RouteOfDay(today);
      StripConcat(PoiIds(before), PoiIds(Plain(today)));
    }
  }

  lemma StripConcat(a: seq<string>, b: seq<string>)
    ensures StripAll(a + b) == StripAll(a) + StripAll(b)
  {
    hide Strip;
  }

  /** No two of the ids become the same when white space is stripped. */
  ghost predicate StripsApart(ids: seq<string>) {
    forall i, j | 0 <= i < j < |ids| :: Strip(ids[i]) != Strip(ids[j])
  }

  lemma StrippedDistinct(ids: seq<string>)
    ensures Distinct(StripAll(ids)) <==> StripsApart(ids)
  {
    hide Strip;
    assert forall k | 0 <= k < |ids| :: StripAll(ids)[k] == Strip(ids[k]);
  }

  /**
   The review of an accepted draft for which the verifier returned the ids it was asked for
   can report missing evidence and nothing else, except that it reports repeated places
   exactly if two ids differ only in white space at their ends. City, dates and route agree
   by the construction of the request.
   */
  lemma ReviewReportsOnlyEvidence(req: Request, v: VerifiedDraft, citations: seq<Citation>, pool: seq<Candidate>,
                                  r: ReviewRequest, issues: seq<Issue>)
    requires Accepted(req, pool, DraftOf(v)) && SameIdsAsAsked(v)
    requires BuildReview(req, v, citations, pool) == Success(r) && IsReview(r, issues)
    ensures forall code :: Reports(issues, code) ==> code == MissingEvidence || code == DuplicatePoi
    ensures Reports(issues, DuplicatePoi) <==> !StripsApart(PoiIds(AllSelected(DraftOf(v))))
    ensures Reports(issues, MissingEvidence) <==> exists i, j :: LacksEvidence(r, i, j)
  {
    hide Strip, Evidence, EvidenceFor, Reports, LacksEvidence, NewItineraryOk, FieldsOk, IsReview;
    ReviewReportsDefects(r, issues);
    var fallback := Stripped(Documents(citations, pool))[0].chunk;
    RouteIsStops(v.days, pool, fallback, |v.days|);
    PlacesArePois(v.days, |v.days|);
    DatesCarryOver(req, v, r);
    hide DatesExact, OnDates, PlannedDays, Route, Documents;
    StrippedDistinct(PoiIds(AllSelected(DraftOf(v))));
    OnlyFiveCodes(issues);
  }

  lemma OnlyFiveCodes(issues: seq<Issue>)
    requires !Reports(issues, CityMismatch) && !Reports(issues, DateMismatch) && !Reports(issues, RouteMismatch)
    ensures forall code :: Reports(issues, code) ==> code == MissingEvidence || code == DuplicatePoi
  {
    hide Reports;
    forall code | Reports(issues, code)
      ensures code == MissingEvidence || code == DuplicatePoi
    {
      match code {
        case MissingEvidence =>
        case DuplicatePoi =>
        case RouteMismatch => assert false;
        case CityMismatch => assert false;
        case DateMismatch => assert false;
      }
    }
  }

  lemma DatesCarryOver(req: Request, v: VerifiedDraft, r: ReviewRequest)
    requires DatesExact(req, Dates(DraftOf(v).days)) && r.start == req.start && r.end == req.end
    requires |r.days| == |v.days| && forall i | 0 <= i < |v.days| :: r.days[i].date == v.days[i].date
    ensures OnDates(r)
  {
    forall i | 0 <= i < |r.days|
      ensures r.days[i].date == r.start + i
    {
      assert Dates(DraftOf(v).days)[i] == req.start + i;
    }
  }

  /** What the request says of the place at a position of the draft. */
  lemma StopOf(req: Request, v: VerifiedDraft, citations: seq<Citation>, pool: seq<Candidate>, r: ReviewRequest)
    requires BuildReview(req, v, citations, pool) == Success(r)
    ensures Documents(citations, pool) != [] && r.city == Strip(req.city) && |r.days| == |v.days|
    ensures forall i | 0 <= i < |v.days| :: |r.days[i].stops| == |v.days[i].activities|
    ensures var fallback := Strip(Documents(citations, pool)[0].chunk);
            forall i, j | 0 <= i < |v.days| && 0 <= j < |v.days[i].activities| ::
              r.days[i].stops[j].evidence == Strip(EvidenceFor(pool, v.days[i].activities[j].poi.id, fallback))
    ensures var n := |Documents(citations, pool)|;
            r.evidence == Evidence(Stripped(Documents(citations, pool)), r.city, if n < RETRIEVAL_LIMIT then n else RETRIEVAL_LIMIT)
  {
    hide Strip, EvidenceFor, Evidence, AllPlaces, FieldsOk, Route, Documents;
  }

  /** The chunk of the source of the place, with the first document's as the fallback. */
  function SourceChunk(docs: seq<Citation>, pool: seq<Candidate>, id: string): string
    requires docs != []
  {
    Strip(EvidenceFor(pool, id, Strip(docs[0].chunk)))
  }

  /** A document of the city carries the chunk, and fewer than twenty documents of the city come before it. */
  ghost predicate Retrieved(docs: seq<Citation>, city: string, chunk: string) {
    exists k :: 0 <= k < |docs| && Strip(docs[k].city) == Strip(city) && Strip(docs[k].chunk) == chunk
                && |EarlierOfCity(docs, city, k)| < 20
  }

  /** The documents of the city before a document: by their chunks, and those with its chunk by their places. */
  ghost function EarlierOfCity(docs: seq<Citation>, city: string, k: int): set<int>
    requires 0 <= k < |docs|
  {
    set j | 0 <= j < |docs| && Strip(docs[j].city) == Strip(city)
            && (Less(Strip(docs[j].chunk), Strip(docs[k].chunk)) || (Strip(docs[j].chunk) == Strip(docs[k].chunk) && j < k))
  }

  /** The evidence of a place is found among the documents. */
  ghost predicate HasEvidence(req: Request, v: VerifiedDraft, docs: seq<Citation>, pool: seq<Candidate>, i: int, j: int)
    requires docs != [] && 0 <= i < |v.days| && 0 <= j < |v.days[i].activities|
  {
    Retrieved(docs, req.city, SourceChunk(docs, pool, v.days[i].activities[j].poi.id))
  }

  lemma RetrievedExactly(docs: seq<Citation>, city: string, chunk: string)
    ensures var limit := if |docs| < RETRIEVAL_LIMIT then |docs| else RETRIEVAL_LIMIT;
            chunk in Evidence(Stripped(docs), Strip(city), limit) <==> Retrieved(docs, city, chunk)
  {
    forall k: nat | k < |docs|
      ensures Rank(Stripped(docs), Strip(city), k) == |EarlierOfCity(docs, city, k)| < |docs|
    {
      RankBound(Stripped(docs), Strip(city), k);
      RankIs(docs, city, k);
    }
    hide Strip, Rank, EarlierOfCity;
  }

  lemma RankIs(docs: seq<Citation>, city: string, k: nat)
    requires k < |docs|
    ensures Rank(Stripped(docs), Strip(city), k) == |EarlierOfCity(docs, city, k)|
  {
    hide Strip, Less;
    assert EarlierOfCity(docs, city, k) == set j | 0 <= j < |docs| && Precedes(Stripped(docs), Strip(city), j, k);
  }

  lemma LacksExactly(req: Request, v: VerifiedDraft, citations: seq<Citation>, pool: seq<Candidate>, r: ReviewRequest)
    requires BuildReview(req, v, citations, pool) == Success(r)
    ensures var docs := Documents(citations, pool);
            docs != [] && ((forall i, j :: !LacksEvidence(r, i, j))
                           <==> forall i, j | 0 <= i < |v.days| && 0 <= j < |v.days[i].activities| :: HasEvidence(req, v, docs, pool, i, j))
  {
    StopOf(req, v, citations, pool, r);
    hide BuildReview, Strip, EvidenceFor, Evidence, Documents, Retrieved, Stripped, FieldsOk;
    var docs := Documents(citations, pool);
    forall i, j | 0 <= i < |v.days| && 0 <= j < |v.days[i].activities|
      ensures LacksEvidence(r, i, j) <==> !HasEvidence(req, v, docs, pool, i, j)
    {
      RetrievedExactly(docs, req.city, SourceChunk(docs, pool, v.days[i].activities[j].poi.id));
    }
  }

  /**
   Exactly when the review approves an accepted draft, in terms of documents and candidates:
   no two ids become the same when they are stripped, and for every stop some document of the
   city with its source's chunk is among the first twenty documents of the city.
   */
  lemma ApprovedExactly(req: Request, v: VerifiedDraft, citations: seq<Citation>, pool: seq<Candidate>,
                        r: ReviewRequest, issues: seq<Issue>)
    requires Accepted(req, pool, DraftOf(v)) && SameIdsAsAsked(v)
    requires BuildReview(req, v, citations, pool) == Success(r) && IsReview(r, issues)
    ensures var docs := Documents(citations, pool);
            docs != []
            && (issues == [] <==>
                  && StripsApart(PoiIds(AllSelected(DraftOf(v))))
                  && forall i, j | 0 <= i < |v.days| && 0 <= j < |v.days[i].activities| :: HasEvidence(req, v, docs, pool, i, j))
  {
    ReviewReportsOnlyEvidence(req, v, citations, pool, r, issues);
    LacksExactly(req, v, citations, pool, r);
    hide IsReview, BuildReview, Accepted, StripsApart, LacksEvidence, HasEvidence, Documents;
    if issues != [] {
      assert Reports(issues, issues[0].code);
    }
  }

  /** With at most twenty documents of the city, and every source cited and the first document among them, no evidence is missing. */
  lemma CitedSourcesSuffice(req: Request, v: VerifiedDraft, citations: seq<Citation>, pool: seq<Candidate>, r: ReviewRequest)
    requires BuildReview(req, v, citations, pool) == Success(r)
    requires var docs := Documents(citations, pool);
             && |OfStrippedCity(docs, req.city)| <= 20
             && (docs != [] ==> Strip(docs[0].city) == Strip(req.city))
             && forall c | 0 <= c < |pool| :: Cites(docs, req.city, pool[c].source.chunk)
    ensures forall i, j :: !LacksEvidence(r, i, j)
  {
    var docs := Documents(citations, pool);
    StopOf(req, v, citations, pool, r);
    hide BuildReview, Strip, EvidenceFor, Evidence, Documents;
    CityStripped(docs, req.city);
    hide OfCity, OfStrippedCity, Cites;
    var fallback := Strip(docs[0].chunk);
    forall i, j | 0 <= i < |r.days| && 0 <= j < |r.days[i].stops|
      ensures r.days[i].stops[j].evidence in r.evidence
    {
      var id := v.days[i].activities[j].poi.id;
      EvidenceIsCited(docs, req.city, pool, id, fallback);
      CitedIsRetrieved(docs, req.city, EvidenceFor(pool, id, fallback));
    }
  }

  /** A document of the city carries the chunk. */
  predicate Cites(docs: seq<Citation>, city: string, chunk: string) {
    exists k :: 0 <= k < |docs| && Strip(docs[k].city) == Strip(city) && Strip(docs[k].chunk) == Strip(chunk)
  }

  lemma CitedIsRetrieved(docs: seq<Citation>, city: string, chunk: string)
    requires Cites(docs, city, chunk) && |OfStrippedCity(docs, city)| <= 20
    ensures Strip(chunk) in Evidence(Stripped(docs), Strip(city), if |docs| < 20 then |docs| else 20)
  {
    CityStripped(docs, city);
    hide Strip, Evidence, OfCity, OfStrippedCity;
    var k :| 0 <= k < |docs| && Strip(docs[k].city) == Strip(city) && Strip(docs[k].chunk) == Strip(chunk);
    FewAreAllRetrieved(Stripped(docs), Strip(city), if |docs| < 20 then |docs| else 20, k);
  }

  lemma CityStripped(docs: seq<Citation>, city: string)
    ensures |OfCity(Stripped(docs), Strip(city))| == |OfStrippedCity(docs, city)| <= |docs|
  {
    hide Strip;
    assert OfCity(Stripped(docs), Strip(city)) == OfStrippedCity(docs, city);
    SubsetSize(OfStrippedCity(docs, city), UpTo(|docs|));
  }

  function OfStrippedCity(docs: seq<Citation>, city: string): set<int> {
    set k | 0 <= k < |docs| && Strip(docs[k].city) == Strip(city)
  }

  lemma {:induction false} EvidenceIsCited(docs: seq<Citation>, city: string, pool: seq<Candidate>, id: string, fallback: string)
    requires docs != [] && fallback == Strip(docs[0].chunk) && Strip(docs[0].city) == Strip(city)
    requires forall c | 0 <= c < |pool| :: Cites(docs, city, pool[c].source.chunk)
    ensures Cites(docs, city, EvidenceFor(pool, id, fallback))
    decreases |pool|
  {
    hide Strip;
    if pool == [] {
      StripTwice(docs[0].chunk);
    } else if pool[|pool| - 1].poi != id {
      EvidenceIsCited(docs, city, pool[..|pool| - 1], id, fallback);
    }
  }

  /**
   A stop is refused if all documents with its source's chunk belong to other cities. A place
   that was discovered directly carries its district's code, so a draft for a whole city
   that uses such a place is never approved.
   */
  lemma ForeignSourceIsRefused(req: Request, v: VerifiedDraft, citations: seq<Citation>, pool: seq<Candidate>,
                               r: ReviewRequest, issues: seq<Issue>, i: nat, j: nat, c: nat)
    requires BuildReview(req, v, citations, pool) == Success(r) && IsReview(r, issues)
    requires i < |v.days| && j < |v.days[i].activities| && c < |pool| && pool[c].poi == v.days[i].activities[j].poi.id
    requires forall d | c < d < |pool| :: pool[d].poi != pool[c].poi
    requires OnlyElsewhere(Stripped(Documents(citations, pool)), Strip(pool[c].source.chunk), Strip(req.city))
    ensures Reports(issues, MissingEvidence)
  {
    StopOf(req, v, citations, pool, r);
    ReviewReportsDefects(r, issues);
    hide BuildReview, Strip, Evidence, Documents, Stripped, Reports, OnDates, RoutePois, Distinct, IsReview;
    var docs := Documents(citations, pool);
    EvidenceIsLast(pool, c, Strip(docs[0].chunk));
    hide EvidenceFor;
    var chunk := Strip(pool[c].source.chunk);
    ForeignIsNotRetrieved(Stripped(docs), r.city, if |docs| < RETRIEVAL_LIMIT then |docs| else RETRIEVAL_LIMIT, chunk);
    assert r.days[i].stops[j].evidence == chunk;
    assert LacksEvidence(r, i, j);
  }

  lemma {:induction false} EvidenceIsLast(pool: seq<Candidate>, c: nat, fallback: string)
    requires c < |pool| && forall d | c < d < |pool| :: pool[d].poi != pool[c].poi
    ensures EvidenceFor(pool, pool[c].poi, fallback) == pool[c].source.chunk
  {
    if c < |pool| - 1 {
      EvidenceIsLast(pool[..|pool| - 1], c, fallback);
    }
  }
}
