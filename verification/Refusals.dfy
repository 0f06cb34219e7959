/**
 Valid drafts that the review refuses: one place under two ids, a district's code, and more
 documents than the review retrieves.
 */
module Refusals {
  import opened Drafts
  import opened Planning
  import opened Review
  import opened Schema
  import opened Sequences
  import opened Text
  import opened Wrappers

  const CITY := "330100"
  const DISTRICT := "330106"
  const REQUEST := Request("job", "user", "prompt", CITY, 0, 0, None, None, None, [])

  function Place(id: string, title: string, city: string): VerifiedActivity {
    VerifiedActivity(Activity(id, title, 0, None), Poi(id, city, 120.0, 30.0))
  }

  function OneDay(a: VerifiedActivity, b: VerifiedActivity): VerifiedDraft {
    VerifiedDraft("Trip", [VerifiedDay(0, [a, b])])
  }

  function Source(chunk: string, city: string): Citation {
    Citation(chunk, "document", city, "content", "kind", "source")
  }

  /** The draft may be saved and its review request is built, but every review of it reports the defect. */
  ghost predicate Refused(citations: seq<Citation>, pool: seq<Candidate>, v: VerifiedDraft, code: Code) {
    && PreviewOk(REQUEST, pool, v) && SameIdsAsAsked(v)
    && var built := BuildReview(REQUEST, v, citations, pool);
       built.Success? && forall issues | IsReview(built.value, issues) :: Reports(issues, code)
  }

  /******* Drafts of one day with two places *******/

  lemma OneDaySelected(a: VerifiedActivity, b: VerifiedActivity)
    ensures AllSelected(DraftOf(OneDay(a, b))) == [a.activity, b.activity]
    ensures AllPlaces(OneDay(a, b).days, 1) == [a, b]
  {
    var v := OneDay(a, b);
    var days := DraftOf(v).days;
    assert |days| == 1 && days[0] == Day(0, Plain([a, b])) && Plain([a, b]) == [a.activity, b.activity];
    assert Selected(days, 0) == [] && Selected(days, 1) == Selected(days, 0) + days[0].activities;
    assert AllPlaces(v.days, 0) == [] && AllPlaces(v.days, 1) == AllPlaces(v.days, 0) + v.days[0].activities;
  }

  lemma OneDayPreview(pool: seq<Candidate>, a: VerifiedActivity, b: VerifiedActivity)
    requires Verified(pool, a.activity) && Verified(pool, b.activity)
    requires a.poi.id == a.activity.poi && b.poi.id == b.activity.poi && a.poi.id != b.poi.id
    requires CityMatches(CITY, a.poi.city) && CityMatches(CITY, b.poi.city)
    ensures PreviewOk(REQUEST, pool, OneDay(a, b)) && SameIdsAsAsked(OneDay(a, b))
  {
    OneDaySelected(a, b);
    hide AllSelected, Verified, CityMatches;
    var t := DraftOf(OneDay(a, b));
    assert Dates(t.days) == [0];
    assert Distinct(PoiIds([a.activity, b.activity]));
  }

  lemma Literal(s: string, max: nat)
    requires s != "" && !IsSpace(s[0]) && !IsSpace(s[|s| - 1]) && |s| <= max
    ensures Strip(s) == s && Sized(s, max)
  {
    StripOfStripped(s);
  }

  lemma RequestFits()
    ensures ContextOk(REQUEST) && Sized(REQUEST.prompt, 2000) && Strip(CITY) == CITY && DayCount(REQUEST) == 1
  {
    hide Strip, Sized;
    Literal(REQUEST.user, 128);
    Literal(CITY, 32);
    Literal(REQUEST.prompt, 2000);
  }

  lemma SourceFits(chunk: string, city: string)
    requires Sized(chunk, 128) && Sized(city, 32)
    ensures DocumentOk(Source(chunk, city))
  {
    hide Strip, Sized;
    Literal("document", 128);
    Literal("content", 10000);
    Literal("kind", 64);
    Literal("source", 128);
  }

  lemma OneDayBuilt(citations: seq<Citation>, pool: seq<Candidate>, a: VerifiedActivity, b: VerifiedActivity)
    requires var docs := Documents(citations, pool);
             && docs != [] && (forall k | 0 <= k < |docs| :: DocumentOk(docs[k]))
             && PlaceOk(a, EvidenceFor(pool, a.poi.id, Strip(docs[0].chunk)))
             && PlaceOk(b, EvidenceFor(pool, b.poi.id, Strip(docs[0].chunk)))
    ensures BuildReview(REQUEST, OneDay(a, b), citations, pool).Success?
  {
    RequestFits();
    OneDaySelected(a, b);
    hide ContextOk, DocumentOk, PlaceOk, Sized, Documents, EvidenceFor, Strip, AllPlaces, Evidence, PlannedDays, Route;
    var docs := Documents(citations, pool);
    assert PlacesFit([a, b], pool, Strip(docs[0].chunk));
    assert FieldsOk(REQUEST, OneDay(a, b), docs, pool);
  }

  /******* One place under two ids *******/

  const SPACED := OneDay(Place("p", "A", CITY), Place("p ", "B", CITY))
  const SPACED_POOL := [Candidate("p", "A", CITY, Source("c", CITY)), Candidate("p ", "B", CITY, Source("d", CITY))]

  /** Two ids that differ only in a trailing space are one place for the review. */
  lemma SpacedIdsAreRefused()
    ensures Refused([], SPACED_POOL, SPACED, DuplicatePoi)
  {
    hide BuildReview, IsReview, Strip, Accepted, PreviewOk, Reports, StripsApart, SameIdsAsAsked;
    SpacedFits();
    SpacedNotApart();
    var r := BuildReview(REQUEST, SPACED, [], SPACED_POOL).value;
    forall issues | IsReview(r, issues)
      ensures Reports(issues, DuplicatePoi)
    {
      PreviewIsAccepted(SPACED_POOL, SPACED);
      ReviewReportsOnlyEvidence(REQUEST, SPACED, [], SPACED_POOL, r, issues);
    }
  }

  lemma PreviewIsAccepted(pool: seq<Candidate>, v: VerifiedDraft)
    requires PreviewOk(REQUEST, pool, v)
    ensures Accepted(REQUEST, pool, DraftOf(v))
  {
    hide Accepted, PlacesOk, WithinBudget;
  }

  lemma SpacedStrips()
    ensures Strip("p") == "p" && Strip("p ") == "p" && Sized("p", 128) && Sized("p ", 128)
  {
    hide Strip;
    Literal("p", 128);
    TrailingSpace("p");
    assert "p" + " " == "p ";
  }

  lemma TrailingSpace(s: string)
    requires s != "" && !IsSpace(s[0]) && !IsSpace(s[|s| - 1])
    ensures Strip(s + " ") == s
  {
    var t := s + " ";
    assert t[0] == s[0] && t[..|t| - 1] == s && IsSpace(t[|t| - 1]);
    assert LeftStrip(t) == t;
    assert RightStrip(t) == RightStrip(s) == s;
  }

  lemma SpacedNotApart()
    ensures !StripsApart(PoiIds(AllSelected(DraftOf(SPACED))))
  {
    OneDaySelected(Place("p", "A", CITY), Place("p ", "B", CITY));
    var ids := PoiIds(AllSelected(DraftOf(SPACED)));
    assert ids[0] == "p" && ids[1] == "p ";
    SpacedStrips();
    hide Strip;
    assert Strip(ids[0]) == Strip(ids[1]);
  }

  lemma SpacedFits()
    ensures PreviewOk(REQUEST, SPACED_POOL, SPACED) && SameIdsAsAsked(SPACED)
    ensures BuildReview(REQUEST, SPACED, [], SPACED_POOL).Success?
  {
    hide Strip, Sized, BuildReview, PreviewOk, Documents, EvidenceFor, DocumentOk, Allowed, SameIdsAsAsked;
    var a, b := Place("p", "A", CITY), Place("p ", "B", CITY);
    AllowedIsLast(SPACED_POOL, 0);
    AllowedIsLast(SPACED_POOL, 1);
    OneDayPreview(SPACED_POOL, a, b);
    EvidenceIsLast(SPACED_POOL, 0, "c");
    EvidenceIsLast(SPACED_POOL, 1, "c");
    PoolDocuments(SPACED_POOL, 0);
    PoolDocuments(SPACED_POOL, 1);
    SpacedStrips();
    Literal("c", 128);
    Literal("d", 128);
    Literal(CITY, 32);
    Literal("A", 200);
    Literal("B", 200);
    SourceFits("c", CITY);
    SourceFits("d", CITY);
    OneDayBuilt([], SPACED_POOL, a, b);
  }

  lemma PoolDocuments(pool: seq<Candidate>, k: nat)
    requires k < |pool|
    ensures |Documents([], pool)| == |pool| && Documents([], pool)[k] == SourceOf(pool[k])
  {
  }

  /******* A district's code *******/

  const NEARBY := OneDay(Place("p", "A", DISTRICT), Place("q", "B", DISTRICT))
  const NEARBY_SOURCES := [Source("c", DISTRICT), Source("d", DISTRICT)]
  const NEARBY_POOL := [
    Candidate("p", "A", DISTRICT, NEARBY_SOURCES[0]), Candidate("q", "B", DISTRICT, NEARBY_SOURCES[1])]

  /** Places of the city that were discovered with their district's code have no evidence in the city. */
  lemma DistrictCodesAreRefused()
    ensures Refused(NEARBY_SOURCES, NEARBY_POOL, NEARBY, MissingEvidence)
  {
    hide BuildReview, IsReview, Strip, PreviewOk, Reports, SameIdsAsAsked;
    NearbyFits();
    var r := BuildReview(REQUEST, NEARBY, NEARBY_SOURCES, NEARBY_POOL).value;
    RequestFits();
    hide Sized, ContextOk;
    Literal(DISTRICT, 32);
    assert OnlyElsewhere(Stripped(NEARBY_SOURCES), Strip("c"), CITY);
    forall issues | IsReview(r, issues)
      ensures Reports(issues, MissingEvidence)
    {
      ForeignSourceIsRefused(REQUEST, NEARBY, NEARBY_SOURCES, NEARBY_POOL, r, issues, 0, 0, 0);
    }
  }

  lemma NearbyFits()
    ensures PreviewOk(REQUEST, NEARBY_POOL, NEARBY) && SameIdsAsAsked(NEARBY)
    ensures BuildReview(REQUEST, NEARBY, NEARBY_SOURCES, NEARBY_POOL).Success?
  {
    hide Strip, Sized, BuildReview, PreviewOk, EvidenceFor, DocumentOk, Allowed, SameIdsAsAsked;
    var a, b := Place("p", "A", DISTRICT), Place("q", "B", DISTRICT);
    AllowedIsLast(NEARBY_POOL, 0);
    AllowedIsLast(NEARBY_POOL, 1);
    OneDayPreview(NEARBY_POOL, a, b);
    EvidenceIsLast(NEARBY_POOL, 0, "c");
    EvidenceIsLast(NEARBY_POOL, 1, "c");
    Literal("p", 128);
    Literal("q", 128);
    Literal("c", 128);
    Literal("d", 128);
    Literal(DISTRICT, 32);
    Literal("A", 200);
    Literal("B", 200);
    SourceFits("c", DISTRICT);
    SourceFits("d", DISTRICT);
    OneDayBuilt(NEARBY_SOURCES, NEARBY_POOL, a, b);
  }

  /******* More than twenty documents *******/

  const LETTERS := "abcdefghijklmnopqrstu"

  /** One source of the city for each letter, all of them cited. */
  const CROWD := seq(21, k requires 0 <= k < 21 => Source([LETTERS[k]], CITY))
  const CROWD_POOL := seq(21, k requires 0 <= k < 21 => Candidate([LETTERS[k]], "A", CITY, CROWD[k]))
  const CROWDED := OneDay(Place("a", "A", CITY), Place("u", "A", CITY))

  lemma LettersAscend()
    ensures |LETTERS| == 21 && forall k | 0 <= k < 21 :: LETTERS[k] as int == 'a' as int + k
  {
  }

  lemma CrowdIs(k: nat)
    requires k < 21
    ensures |CROWD| == 21 && CROWD[k] == Source([LETTERS[k]], CITY) && Stripped(CROWD)[k] == CROWD[k] && DocumentOk(CROWD[k])
    ensures |CROWD_POOL| == 21 && CROWD_POOL[k] == Candidate([LETTERS[k]], "A", CITY, CROWD[k])
  {
    hide Strip, Sized, DocumentOk;
    LettersAscend();
    Literal([LETTERS[k]], 128);
    Literal(CITY, 32);
    SourceFits([LETTERS[k]], CITY);
  }

  ghost predicate Lettered(docs: seq<Citation>, pool: seq<Candidate>) {
    && |docs| == |pool| == 21
    && forall k | 0 <= k < 21 ::
         pool[k] == Candidate([LETTERS[k]], "A", CITY, docs[k]) && docs[k].chunk == [LETTERS[k]] && DocumentOk(docs[k])
  }

  lemma LetteredPreview(docs: seq<Citation>, pool: seq<Candidate>)
    requires Lettered(docs, pool)
    ensures PreviewOk(REQUEST, pool, CROWDED) && SameIdsAsAsked(CROWDED)
  {
    hide PreviewOk, Allowed, SameIdsAsAsked, DocumentOk;
    LettersAscend();
    assert [LETTERS[0]] == "a" && [LETTERS[20]] == "u";
    AllowedIsLast(pool, 0);
    AllowedIsLast(pool, 20);
    OneDayPreview(pool, Place("a", "A", CITY), Place("u", "A", CITY));
  }

  lemma LetteredEvidence(docs: seq<Citation>, pool: seq<Candidate>)
    requires Lettered(docs, pool)
    ensures EvidenceFor(pool, "a", "a") == "a" && EvidenceFor(pool, "u", "a") == "u"
  {
    hide EvidenceFor, DocumentOk;
    LettersAscend();
    assert [LETTERS[0]] == "a" && [LETTERS[20]] == "u";
    EvidenceIsLast(pool, 0, "a");
    EvidenceIsLast(pool, 20, "a");
  }

  lemma LetteredBuilt(docs: seq<Citation>, pool: seq<Candidate>)
    requires Lettered(docs, pool)
    ensures BuildReview(REQUEST, CROWDED, docs, pool).Success?
  {
    hide Strip, Sized, BuildReview, EvidenceFor, DocumentOk;
    LettersAscend();
    assert [LETTERS[0]] == "a";
    LetteredEvidence(docs, pool);
    Literal("a", 128);
    Literal("u", 128);
    Literal(CITY, 32);
    Literal("A", 200);
    OneDayBuilt(docs, pool, Place("a", "A", CITY), Place("u", "A", CITY));
  }

  lemma CrowdFits()
    ensures PreviewOk(REQUEST, CROWD_POOL, CROWDED) && SameIdsAsAsked(CROWDED)
    ensures BuildReview(REQUEST, CROWDED, CROWD, CROWD_POOL).Success?
    ensures EvidenceFor(CROWD_POOL, "u", "a") == "u"
  {
    assert Lettered(CROWD, CROWD_POOL) by {
      hide Sized, Strip, DocumentOk, Stripped;
      forall k: nat | k < 21
        ensures |CROWD| == |CROWD_POOL| == 21 && CROWD_POOL[k] == Candidate([LETTERS[k]], "A", CITY, CROWD[k])
        ensures DocumentOk(CROWD[k]) && CROWD[k].chunk == [LETTERS[k]]
      {
        CrowdIs(k);
      }
    }
    hide *;
    LetteredPreview(CROWD, CROWD_POOL);
    LetteredEvidence(CROWD, CROWD_POOL);
    LetteredBuilt(CROWD, CROWD_POOL);
  }

  /** Of 21 cited sources, all of the city, the last one in the order of chunks is not retrieved. */
  lemma CrowdIsRefused()
    ensures Refused(CROWD, CROWD_POOL, CROWDED, MissingEvidence)
  {
    hide BuildReview, IsReview, Strip, PreviewOk, Reports, SameIdsAsAsked, LacksEvidence, EvidenceFor, OnDates, RoutePois, Distinct;
    CrowdFits();
    var r := BuildReview(REQUEST, CROWDED, CROWD, CROWD_POOL).value;
    LastLacksEvidence(r);
    forall issues | IsReview(r, issues)
      ensures Reports(issues, MissingEvidence)
    {
      ReviewReportsDefects(r, issues);
    }
  }

  lemma TwentyComeBefore(docs: seq<Citation>)
    requires |docs| == 21 && forall j | 0 <= j < 20 :: docs[j].city == CITY && Less(docs[j].chunk, docs[20].chunk)
    ensures |OfCityBefore(docs, CITY, docs[20].chunk)| >= 20
  {
    hide Less;
    SubsetSize(UpTo(20), OfCityBefore(docs, CITY, docs[20].chunk));
  }

  lemma LastLacksEvidence(r: ReviewRequest)
    requires BuildReview(REQUEST, CROWDED, CROWD, CROWD_POOL) == Success(r)
    ensures LacksEvidence(r, 0, 1)
  {
    hide Strip, Sized, BuildReview, DocumentOk, Evidence, EvidenceFor, FieldsOk, OfCityBefore;
    StopOf(REQUEST, CROWDED, CROWD, CROWD_POOL, r);
    CrowdFits();
    RequestFits();
    Literal("a", 128);
    Literal("u", 128);
    forall k: nat | k < 21
      ensures CROWD[k] == Source([LETTERS[k]], CITY) && Stripped(CROWD)[k] == CROWD[k]
    {
      CrowdIs(k);
    }
    LettersAscend();
    var docs := Stripped(CROWD);
    forall j: nat | j < 20
      ensures docs[j].city == CITY && Less(docs[j].chunk, docs[20].chunk)
    {
      assert LETTERS[j] < LETTERS[20];
    }
    TwentyComeBefore(docs);
    EarlyIsRetrieved(docs, CITY, 20, 20);
  }
}
