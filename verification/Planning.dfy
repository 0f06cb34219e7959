/** The two planning loops: generate, check, verify, review and save, with a bounded number of revisions. */
module Planning {
  import opened Drafts
  import opened Json
  import opened Review
  import opened Schema
  import opened Sequences
  import opened Text
  import opened Wrappers

  datatype WorkflowError =
    | InvalidRequest | Unavailable | DraftSchema(error: SchemaError) | WrongCity | InsufficientCandidates
    | ConstraintViolation | ReviewUnbuildable

  /**
   The foreign parties as arbitrary functions: the generator's draft and the verifier's answers
   at each attempt, and the preview store's id. An absent value is an unavailable dependency.
   */
  datatype Dependencies = Dependencies(
    generate: nat -> Option<Fields>,
    verify: (nat, string) -> Option<Poi>,
    save: VerifiedDraft -> Option<string>)

  const MAX_REVISIONS := 2

  /******* What a saved preview promises *******/

  function SumCosts(activities: seq<Activity>): nat {
    if activities == [] then 0 else SumCosts(activities[..|activities| - 1]) + activities[|activities| - 1].cost
  }

  lemma {:induction false} CostsAdd(a: seq<Activity>, b: seq<Activity>)
    ensures SumCosts(a + b) == SumCosts(a) + SumCosts(b)
    decreases |b|
  {
    if b == [] {
      assert a + b == a;
    } else {
      var before := b[..|b| - 1];
      assert (a + b)[..|a + b| - 1] == a + before;
      CostsAdd(a, before);
    }
  }

  /** The total of a list is the cost of any one activity and the total of the others. */
  lemma CostOfOne(activities: seq<Activity>, k: nat)
    requires k < |activities|
    ensures SumCosts(activities) == SumCosts(activities[..k]) + activities[k].cost + SumCosts(activities[k + 1..])
    ensures SumCosts([]) == 0
  {
    var one := [activities[k]];
    assert activities == activities[..k] + one + activities[k + 1..];
    assert one[..0] == [] && SumCosts(one) == activities[k].cost;
    CostsAdd(activities[..k], one);
    CostsAdd(activities[..k] + one, activities[k + 1..]);
  }

  predicate WithinBudget(req: Request, v: VerifiedDraft) {
    req.budget.Some? ==> SumCosts(AllSelected(DraftOf(v))) <= req.budget.value
  }

  /** The places are what the verifier answered for the draft's ids at some attempt. */
  ghost predicate VerifiedAt(deps: Dependencies, n: nat, v: VerifiedDraft) {
    forall i, j | 0 <= i < |v.days| && 0 <= j < |v.days[i].activities| ::
      deps.verify(n, v.days[i].activities[j].activity.poi) == Some(v.days[i].activities[j].poi)
  }

  ghost predicate PreviewOk(req: Request, pool: seq<Candidate>, v: VerifiedDraft) {
    Accepted(req, pool, DraftOf(v)) && PlacesOk(req.city, v) && WithinBudget(req, v)
  }

  ghost predicate Built(req: Request, pool: seq<Candidate>, citations: seq<Citation>, v: VerifiedDraft) {
    BuildReview(req, v, citations, pool).Success?
  }

  /** The review of exactly this draft finds nothing. */
  ghost predicate Approved(req: Request, pool: seq<Candidate>, citations: seq<Citation>, v: VerifiedDraft) {
    Built(req, pool, citations, v) && IsReview(BuildReview(req, v, citations, pool).value, [])
  }

  /** A review with issues is a review of a draft with a defect. */
  lemma IssuesMeanDefects(r: ReviewRequest, issues: seq<Issue>)
    requires IsReview(r, issues)
    ensures IsReview(r, []) <==> issues == []
  {
    hide IsReview;
    if IsReview(r, []) {
      ReviewIsUnique(r, issues, []);
    }
  }

  /** A saved preview of a new itinerary, spelled out. */
  lemma NewPreview(req: Request, pool: seq<Candidate>, v: VerifiedDraft)
    requires PreviewOk(req, pool, v) && req.target.None? && req.start <= req.end
    ensures |v.days| == req.end - req.start + 1
    ensures forall i | 0 <= i < |v.days| :: v.days[i].date == req.start + i && 2 <= |v.days[i].activities| <= 3
    ensures forall i, j | 0 <= i < |v.days| && 0 <= j < |v.days[i].activities| ::
              var a := v.days[i].activities[j];
              && InPool(pool, a.activity.poi) && a.activity.title == Allowed(pool)[a.activity.poi]
              && (a.poi.city == req.city
                  || (|req.city| == 6 && req.city[4] == '0' && req.city[5] == '0'
                      && (SameStart(req.city, a.poi.city, 4) || (Municipal(req.city) && SameStart(req.city, a.poi.city, 2)))))
    ensures Distinct(PoiIds(AllSelected(DraftOf(v))))
    ensures forall i, j, k, l | 0 <= i < |v.days| && 0 <= j < |v.days[i].activities| && 0 <= k < |v.days| && 0 <= l < |v.days[k].activities| ::
              v.days[i].activities[j].activity.poi == v.days[k].activities[l].activity.poi ==> i == k && j == l
    ensures forall id :: id in req.mustVisit ==> id in PoiIds(AllSelected(DraftOf(v)))
    ensures forall id :: id in req.mustVisit ==>
              exists i, j :: 0 <= i < |v.days| && 0 <= j < |v.days[i].activities| && v.days[i].activities[j].activity.poi == id
    ensures req.budget.Some? ==> SumCosts(AllSelected(DraftOf(v))) <= req.budget.value
  {
    hide Allowed, Distinct, CityMatches, SumCosts;
    var t := DraftOf(v);
    DistinctPlaces(t.days, |t.days|);
    PlacesAt(v);
    forall id | id in req.mustVisit
      ensures exists i, j :: 0 <= i < |v.days| && 0 <= j < |v.days[i].activities| && v.days[i].activities[j].activity.poi == id
    {
      SelectedAt(t.days, |t.days|, id);
      var i, j :| i < |t.days| && IsAt(t.days, i, j, id);
      assert v.days[i].activities[j].activity.poi == id;
    }
    forall i | 0 <= i < |v.days|
      ensures v.days[i].date == req.start + i && 2 <= |v.days[i].activities| <= 3
    {
      assert Dates(t.days)[i] == req.start + i;
      assert |t.days[i].activities| == |v.days[i].activities|;
    }
    forall i, j | 0 <= i < |v.days| && 0 <= j < |v.days[i].activities|
      ensures Verified(pool, v.days[i].activities[j].activity)
      ensures var a := v.days[i].activities[j];
              || a.poi.city == req.city
              || (|req.city| == 6 && req.city[4] == '0' && req.city[5] == '0'
                  && (SameStart(req.city, a.poi.city, 4) || (Municipal(req.city) && SameStart(req.city, a.poi.city, 2))))
    {
      CityMatchesExactly(req.city, v.days[i].activities[j].poi.city);
      SelectedHas(t.days, |t.days|, i, j);
      assert t.days[i].activities[j] == v.days[i].activities[j].activity;
    }
  }

  lemma PlacesAt(v: VerifiedDraft)
    ensures forall i, j | 0 <= i < |v.days| && 0 <= j < |v.days[i].activities| ::
              IsAt(DraftOf(v).days, i, j, v.days[i].activities[j].activity.poi)
    ensures forall i, j, id | IsAt(DraftOf(v).days, i, j, id) ::
              0 <= i < |v.days| && 0 <= j < |v.days[i].activities| && v.days[i].activities[j].activity.poi == id
  {
  }

  lemma {:induction false} SelectedHas(days: seq<Day>, n: nat, i: nat, j: nat)
    requires i < n <= |days| && j < |days[i].activities|
    ensures exists k :: 0 <= k < |Selected(days, n)| && Selected(days, n)[k] == days[i].activities[j]
  {
    if i == n - 1 {
      assert Selected(days, n)[|Selected(days, n - 1)| + j] == days[i].activities[j];
    } else {
      SelectedHas(days, n - 1, i, j);
      var k :| 0 <= k < |Selected(days, n - 1)| && Selected(days, n - 1)[k] == days[i].activities[j];
      assert Selected(days, n)[k] == days[i].activities[j];
    }
  }

  /******* The workflow *******/

  class Workflow {
    const cal: Calendar
    const req: Request
    const pool: seq<Candidate>
    const citations: seq<Citation>
    const deps: Dependencies

    var generated: Option<Fields>
    var draft: Option<Draft>
    var verified: Option<VerifiedDraft>
    var passed: bool
    var retryPlanning: bool
    var revisions: nat
    var preview: Option<string>
    var generations: nat

    constructor (cal: Calendar, req: Request, pool: seq<Candidate>, citations: seq<Citation>, deps: Dependencies)
      ensures this.cal == cal && this.req == req && this.pool == pool && this.citations == citations && this.deps == deps
      ensures preview.None? && revisions == 0 && generations == 0
    {
      this.cal, this.req, this.pool, this.citations, this.deps := cal, req, pool, citations, deps;
      generated, draft, verified, preview := None, None, None, None;
      passed, retryPlanning, revisions, generations := false, false, 0, 0;
    }

    /** The verified draft that attempt `n` yields, if its draft is acceptable and its places are in the city. */
    ghost predicate Yields(n: nat, v: VerifiedDraft) {
      && deps.generate(n).Some?
      && IsDraft(cal, Merged(cal, req, deps.generate(n).value), DraftOf(v)) && Accepted(req, pool, DraftOf(v))
      && PlacesOk(req.city, v) && VerifiedAt(deps, n + 1, v)
    }

    lemma YieldsOne(n: nat, v: VerifiedDraft, w: VerifiedDraft)
      requires Yields(n, v) && Yields(n, w)
      ensures v == w
    {
      DraftIsUnique(cal, Merged(cal, req, deps.generate(n).value), DraftOf(v), DraftOf(w));
      hide IsDraft, Accepted, PlacesOk, Merged;
      forall i | 0 <= i < |v.days|
        ensures v.days[i] == w.days[i]
      {
        assert DraftOf(v).days[i] == DraftOf(w).days[i];
        assert Plain(v.days[i].activities) == Plain(w.days[i].activities);
        forall j | 0 <= j < |v.days[i].activities|
          ensures v.days[i].activities[j] == w.days[i].activities[j]
        {
          assert Plain(v.days[i].activities)[j] == Plain(w.days[i].activities)[j];
        }
      }
      assert v.days == w.days;
    }

    predicate Saves(v: VerifiedDraft) {
      deps.save(v).Some? && deps.save(v).value != ""
    }

    /** The local loop, at attempt `n` with `r` revisions used up, goes on to save a preview. */
    ghost predicate LocalSucceeds(n: nat, r: nat)
      requires r <= MAX_REVISIONS
      decreases MAX_REVISIONS - r
    {
      exists v :: Yields(n, v) && if WithinBudget(req, v) then Saves(v) else r < MAX_REVISIONS && LocalSucceeds(n + 1, r + 1)
    }

    /** The same for the graph's loop: a draft over budget and one not approved use up a revision each. */
    ghost predicate GraphSucceeds(n: nat, r: nat)
      requires r <= MAX_REVISIONS
      decreases MAX_REVISIONS - r
    {
      exists v :: Yields(n, v) && Built(req, pool, citations, v) &&
                  var over := if WithinBudget(req, v) then 0 else 1;
                  var refused := if Approved(req, pool, citations, v) then 0 else 1;
                  if over + refused == 0 then Saves(v)
                  else r + over + refused <= MAX_REVISIONS && GraphSucceeds(n + 1, r + over + refused)
    }

    /** One to seven days, a city, and the identification of the job; no negative budget. */
    method ValidateRequest() returns (error: Option<WorkflowError>)
      ensures error.None? <==>
                && req.job != "" && req.user != "" && !Blank(req.prompt) && req.city != ""
                && 1 <= req.end - req.start + 1 <= 7 && !(req.budget.Some? && req.budget.value < 0)
      ensures error.None? <==> ValidRequest()
      ensures error.Some? ==> error == Some(InvalidRequest)
    {
      StripBlank(req.prompt);
      if req.job == "" || req.user == "" || Strip(req.prompt) == "" || req.city == "" {
        return Some(InvalidRequest);
      }
      if !(1 <= DayCount(req) <= 7) || (req.budget.Some? && req.budget.value < 0) {
        return Some(InvalidRequest);
      }
      return None;
    }

    method GenerateDraft() returns (error: Option<WorkflowError>)
      modifies this`generated, this`generations
      ensures generations == old(generations) + 1
      ensures match deps.generate(old(generations))
              case None => error == Some(Unavailable)
              case Some(draft) => error.None? && generated == Some(Merged(cal, req, draft))
    {
      var answer := deps.generate(generations);
      generations := generations + 1;
      if answer.None? {
        return Some(Unavailable);
      }
      var merged := MergeTargetSnapshot(cal, req, answer.value);
      generated := Some(merged);
      return None;
    }

    method CheckSchema() returns (error: Option<WorkflowError>)
      requires generated.Some?
      modifies this`draft
      ensures error.None? ==> draft.Some? && IsDraft(cal, generated.value, draft.value) && Accepted(req, pool, draft.value)
      ensures error.Some? ==> error == Some(InsufficientCandidates) || error.value.DraftSchema?
      ensures error.Some? ==> forall t :: !(IsDraft(cal, generated.value, t) && Accepted(req, pool, t))
    {
      hide IsDraft, Accepted, Fault;
      var r := ValidateSchema(cal, req, pool, generated.value);
      if r.Failure? {
        forall t
          ensures !(IsDraft(cal, generated.value, t) && Accepted(req, pool, t))
        {
          FaultExcludes(cal, req, pool, generated.value, t, r.error);
        }
        return Some(if r.error == TooFewActivities then InsufficientCandidates else DraftSchema(r.error));
      }
      draft := Some(r.value);
      return None;
    }

    /** Asks the verifier for every place; each must lie in the requested city. */
    method VerifyPois() returns (error: Option<WorkflowError>)
      requires draft.Some?
      modifies this`verified
      ensures error.None? ==> verified.Some? && DraftOf(verified.value) == draft.value
                              && PlacesOk(req.city, verified.value) && VerifiedAt(deps, generations, verified.value)
      ensures error.Some? ==> error == Some(Unavailable) || error == Some(WrongCity)
      ensures error.Some? ==> forall v :: DraftOf(v) == draft.value ==> !(PlacesOk(req.city, v) && VerifiedAt(deps, generations, v))
    {
      var days := draft.value.days;
      var verifiedDays: seq<VerifiedDay> := [];
      for i := 0 to |days|
        invariant PlainDays(verifiedDays) == days[..i]
        invariant PlacesOk(req.city, VerifiedDraft("", verifiedDays)) && VerifiedAt(deps, generations, VerifiedDraft("", verifiedDays))
      {
        var places;
        error, places := VerifyDay(days[i].activities);
        if error.Some? {
          BadDaySpreads(i);
          return;
        }
        ghost var before := verifiedDays;
        var day := VerifiedDay(days[i].date, places);
        verifiedDays := verifiedDays + [day];
        assert PlainDays(verifiedDays) == PlainDays(before) + [Day(day.date, Plain(places))];
      }
      verified := Some(VerifiedDraft(draft.value.title, verifiedDays));
      return None;
    }

    /** A place that cannot be verified in the city makes the whole draft fail. */
    lemma BadDaySpreads(i: nat)
      requires draft.Some? && i < |draft.value.days| && HasBadPlace(draft.value.days[i].activities)
      ensures forall v :: DraftOf(v) == draft.value ==> !(PlacesOk(req.city, v) && VerifiedAt(deps, generations, v))
    {
      var j :| 0 <= j < |draft.value.days[i].activities| && BadPlace(draft.value.days[i].activities[j]);
      forall v | DraftOf(v) == draft.value && VerifiedAt(deps, generations, v)
        ensures !PlacesOk(req.city, v)
      {
        assert Plain(v.days[i].activities) == draft.value.days[i].activities;
        assert Plain(v.days[i].activities)[j] == v.days[i].activities[j].activity;
      }
    }

    predicate BadPlace(a: Activity)
      reads this`generations
    {
      var poi := deps.verify(generations, a.poi); poi.None? || !CityMatches(req.city, poi.value.city)
    }

    predicate HasBadPlace(activities: seq<Activity>)
      reads this`generations
    {
      exists j :: 0 <= j < |activities| && BadPlace(activities[j])
    }

    method VerifyDay(activities: seq<Activity>) returns (error: Option<WorkflowError>, places: seq<VerifiedActivity>)
      ensures error.None? ==> Plain(places) == activities
      ensures error.None? ==> forall j | 0 <= j < |places| ::
                                CityMatches(req.city, places[j].poi.city)
                                && deps.verify(generations, places[j].activity.poi) == Some(places[j].poi)
      ensures error.Some? ==> (error == Some(Unavailable) || error == Some(WrongCity)) && HasBadPlace(activities)
    {
      places := [];
      for j := 0 to |activities|
        invariant Plain(places) == activities[..j]
        invariant forall k | 0 <= k < |places| ::
                    CityMatches(req.city, places[k].poi.city)
                    && deps.verify(generations, places[k].activity.poi) == Some(places[k].poi)
      {
        var poi := deps.verify(generations, activities[j].poi);
        assert poi.None? || !CityMatches(req.city, poi.value.city) ==> BadPlace(activities[j]);
        if poi.None? {
          return Some(Unavailable), places;
        }
        if !CityMatches(req.city, poi.value.city) {
          return Some(WrongCity), places;
        }
        places := places + [VerifiedActivity(activities[j], poi.value)];
      }
      return None, places;
    }

    /** The budget check, and the decision to plan again while revisions are left. */
    method CheckConstraints() returns (error: Option<WorkflowError>)
      requires verified.Some? && revisions <= MAX_REVISIONS
      modifies this`passed, this`retryPlanning, this`revisions
      ensures passed == WithinBudget(req, verified.value)
      ensures error == if !passed && old(revisions) == MAX_REVISIONS then Some(ConstraintViolation) else None
      ensures retryPlanning == (!passed && old(revisions) < MAX_REVISIONS)
      ensures revisions == old(revisions) + if retryPlanning then 1 else 0
    {
      var total := TotalCost();
      passed := !(req.budget.Some? && total > req.budget.value);
      retryPlanning := false;
      if !passed {
        if revisions < MAX_REVISIONS {
          revisions := revisions + 1;
          retryPlanning := true;
        } else {
          return Some(ConstraintViolation);
        }
      }
      return None;
    }

    method TotalCost() returns (total: nat)
      requires verified.Some?
      ensures total == SumCosts(AllSelected(DraftOf(verified.value)))
    {
      var selected := AllSelected(DraftOf(verified.value));
      total := 0;
      for k := 0 to |selected|
        invariant total == SumCosts(selected[..k])
      {
        assert selected[..k + 1][..k] == selected[..k];
        total := total + selected[k].cost;
      }
      assert selected[..|selected|] == selected;
    }

    /** The controlled review; a draft that is not approved is planned again while revisions are left. */
    method ControlledReview() returns (error: Option<WorkflowError>)
      requires verified.Some? && revisions <= MAX_REVISIONS
      modifies this`retryPlanning, this`revisions
      ensures error.Some? && error != Some(ConstraintViolation) <==> !Built(req, pool, citations, verified.value)
      ensures error.Some? ==> error.value in {Unavailable, ReviewUnbuildable, ConstraintViolation}
      ensures error == Some(ConstraintViolation) <==>
                Built(req, pool, citations, verified.value) && !Approved(req, pool, citations, verified.value) && old(revisions) == MAX_REVISIONS
      ensures var again := error.None? && !Approved(req, pool, citations, verified.value);
              retryPlanning == (old(retryPlanning) || again) && revisions == old(revisions) + if again then 1 else 0
    {
      hide BuildReview, IsReview;
      var built := BuildReview(req, verified.value, citations, pool);
      if built.Failure? {
        return Some(if built.error == NoDocuments then Unavailable else ReviewUnbuildable);
      }
      var approved, issues := ReviewItinerary(built.value);
      IssuesMeanDefects(built.value, issues);
      if !approved {
        if revisions < MAX_REVISIONS {
          revisions := revisions + 1;
          retryPlanning := true;
          return None;
        }
        return Some(ConstraintViolation);
      }
      return None;
    }

    method SavePreview() returns (error: Option<WorkflowError>)
      requires verified.Some?
      modifies this`preview
      ensures error.None? <==> Saves(verified.value)
      ensures error.None? <==> deps.save(verified.value).Some? && deps.save(verified.value) != Some("")
      ensures error.None? ==> preview == deps.save(verified.value)
      ensures error.Some? ==> error == Some(Unavailable) && preview == old(preview)
    {
      var id := deps.save(verified.value);
      if id.None? || id.value == "" {
        return Some(Unavailable);
      }
      preview := id;
      return None;
    }

    /** One pass of the loop up to the constraint check. */
    method Plan() returns (error: Option<WorkflowError>)
      requires revisions <= MAX_REVISIONS
      modifies this
      ensures generations == old(generations) + 1 && preview == old(preview)
      ensures error.None? || error == Some(ConstraintViolation) ==>
                && verified.Some? && Yields(old(generations), verified.value) && passed == WithinBudget(req, verified.value)
                && (error.Some? <==> !passed && old(revisions) == MAX_REVISIONS)
      ensures error.None? ==> passed == !retryPlanning && revisions == old(revisions) + if retryPlanning then 1 else 0
      ensures error.Some? ==> revisions == old(revisions)
      ensures error.Some? && error != Some(ConstraintViolation) ==> forall v :: !Yields(old(generations), v)
    {
      hide IsDraft, Accepted, PlacesOk, VerifiedAt, WithinBudget, Merged, DraftOf;
      error := GenerateDraft();
      if error.Some? {
        return;
      }
      error := CheckSchema();
      if error.Some? {
        return;
      }
      error := VerifyPois();
      if error.Some? {
        forall v | IsDraft(cal, generated.value, DraftOf(v))
          ensures DraftOf(v) == draft.value
        {
          DraftIsUnique(cal, generated.value, DraftOf(v), draft.value);
        }
        return;
      }
      error := CheckConstraints();
    }

    /** What an attempt means for the loops, once it is known what it yields. */
    lemma UnfoldLocal(n: nat, r: nat, v: VerifiedDraft)
      requires r <= MAX_REVISIONS && Yields(n, v)
      ensures LocalSucceeds(n, r) <==> if WithinBudget(req, v) then Saves(v) else r < MAX_REVISIONS && LocalSucceeds(n + 1, r + 1)
    {
      hide Yields, WithinBudget, Saves;
      forall w | Yields(n, w)
        ensures w == v
      {
        YieldsOne(n, v, w);
      }
    }

    lemma UnfoldGraph(n: nat, r: nat, v: VerifiedDraft)
      requires r <= MAX_REVISIONS && Yields(n, v)
      ensures GraphSucceeds(n, r) <==>
              && Built(req, pool, citations, v)
              && var over := if WithinBudget(req, v) then 0 else 1;
                 var refused := if Approved(req, pool, citations, v) then 0 else 1;
                 if over + refused == 0 then Saves(v)
                 else r + over + refused <= MAX_REVISIONS && GraphSucceeds(n + 1, r + over + refused)
    {
      hide Yields, WithinBudget, Built, Approved, Saves;
      forall w | Yields(n, w)
        ensures w == v
      {
        YieldsOne(n, v, w);
      }
    }

    lemma NothingYielded(n: nat, r: nat)
      requires r <= MAX_REVISIONS && forall v :: !Yields(n, v)
      ensures !LocalSucceeds(n, r) && !GraphSucceeds(n, r)
    {
      hide Yields;
    }

    /******* When the loops succeed, without their recursion *******/

    ghost predicate OverBudgetAt(n: nat) {
      exists v :: Yields(n, v) && !WithinBudget(req, v)
    }

    ghost predicate SavedAt(n: nat) {
      exists v :: Yields(n, v) && WithinBudget(req, v) && deps.save(v).Some? && deps.save(v) != Some("")
    }

    /** Attempt `m` can be saved, and the attempts from `n` up to it are over the budget. */
    ghost predicate LocalStopsAt(n: nat, m: nat) {
      n <= m && SavedAt(m) && forall i: nat | n <= i < m :: OverBudgetAt(i)
    }

    ghost predicate LocalStops(n: nat, r: nat)
      requires r <= MAX_REVISIONS
    {
      exists m: nat :: m <= n + 2 - r && LocalStopsAt(n, m)
    }

    /** The local loop succeeds exactly if one of the attempts it has left can be saved, and those before it are over budget. */
    lemma LocalExactly(n: nat, r: nat)
      requires r <= MAX_REVISIONS
      ensures LocalSucceeds(n, r) <==> LocalStops(n, r)
      decreases MAX_REVISIONS - r
    {
      hide Yields, WithinBudget, LocalSucceeds, LocalStops;
      LocalStopsCons(n, r);
      if v :| Yields(n, v) {
        UnfoldLocal(n, r, v);
        forall w | Yields(n, w)
          ensures w == v
        {
          YieldsOne(n, v, w);
        }
        assert SavedAt(n) <==> WithinBudget(req, v) && deps.save(v).Some? && deps.save(v) != Some("");
        assert OverBudgetAt(n) <==> !WithinBudget(req, v);
        if r < MAX_REVISIONS {
          LocalExactly(n + 1, r + 1);
        }
      } else {
        NothingYielded(n, r);
        assert !SavedAt(n) && !OverBudgetAt(n);
      }
    }

    lemma LocalStopsCons(n: nat, r: nat)
      requires r <= MAX_REVISIONS
      ensures LocalStops(n, r) <==> SavedAt(n) || (r < MAX_REVISIONS && OverBudgetAt(n) && LocalStops(n + 1, r + 1))
    {
      hide OverBudgetAt, SavedAt;
      assert LocalStopsAt(n, n) <==> SavedAt(n);
      if LocalStops(n, r) {
        var m: nat :| m <= n + MAX_REVISIONS - r && LocalStopsAt(n, m);
        assert m == n || LocalStopsAt(n + 1, m);
      }
      if r < MAX_REVISIONS && OverBudgetAt(n) && LocalStops(n + 1, r + 1) {
        var m: nat :| m <= n + MAX_REVISIONS - r && LocalStopsAt(n + 1, m);
        assert LocalStopsAt(n, m);
      }
    }

    ghost predicate RefusedAt(n: nat) {
      exists v :: Yields(n, v) && !Approved(req, pool, citations, v)
    }

    ghost predicate BuiltAt(n: nat) {
      exists v :: Yields(n, v) && Built(req, pool, citations, v)
    }

    ghost predicate ApprovedAt(n: nat) {
      BuiltAt(n) && !RefusedAt(n) && SavedAt(n)
    }

    /** The revisions that an attempt uses up: one for the budget, one for the review. */
    ghost function UsedUpAt(n: nat): nat {
      (if OverBudgetAt(n) then 1 else 0) + if RefusedAt(n) then 1 else 0
    }

    /** The revisions that the attempts from `n` up to `m` use up. */
    ghost function UsedUp(n: nat, m: nat): nat
      requires n <= m
      decreases m - n
    {
      if n == m then 0 else UsedUpAt(n) + UsedUp(n + 1, m)
    }

    /** Attempt `m` is approved and can be saved, and those from `n` up to it are planned again within the revisions left. */
    ghost predicate GraphStopsAt(n: nat, r: nat, m: nat) {
      && n <= m && ApprovedAt(m) && r + UsedUp(n, m) <= 2
      && forall i: nat | n <= i < m :: BuiltAt(i) && (OverBudgetAt(i) || RefusedAt(i))
    }

    ghost predicate GraphStops(n: nat, r: nat) {
      exists m: nat :: GraphStopsAt(n, r, m)
    }

    /** The graph's loop succeeds exactly if there is such an attempt. */
    lemma GraphExactly(n: nat, r: nat)
      requires r <= MAX_REVISIONS
      ensures GraphSucceeds(n, r) <==> GraphStops(n, r)
      decreases MAX_REVISIONS - r
    {
      hide Yields, WithinBudget, GraphSucceeds, GraphStops, Built, Approved;
      GraphStopsCons(n, r);
      if v :| Yields(n, v) {
        UnfoldGraph(n, r, v);
        forall w | Yields(n, w)
          ensures w == v
        {
          YieldsOne(n, v, w);
        }
        assert SavedAt(n) <==> WithinBudget(req, v) && deps.save(v).Some? && deps.save(v) != Some("");
        assert OverBudgetAt(n) <==> !WithinBudget(req, v);
        assert RefusedAt(n) <==> !Approved(req, pool, citations, v);
        assert BuiltAt(n) <==> Built(req, pool, citations, v);
        if 0 < UsedUpAt(n) <= MAX_REVISIONS - r {
          GraphExactly(n + 1, r + UsedUpAt(n));
        }
      } else {
        NothingYielded(n, r);
        assert !BuiltAt(n);
      }
    }

    lemma GraphStopsCons(n: nat, r: nat)
      requires r <= MAX_REVISIONS
      ensures GraphStops(n, r) <==>
              || ApprovedAt(n)
              || (BuiltAt(n) && 0 < UsedUpAt(n) <= MAX_REVISIONS - r && GraphStops(n + 1, r + UsedUpAt(n)))
    {
      hide OverBudgetAt, RefusedAt, BuiltAt, ApprovedAt;
      assert GraphStopsAt(n, r, n) <==> ApprovedAt(n);
      var used := UsedUpAt(n);
      if GraphStops(n, r) {
        var m: nat :| GraphStopsAt(n, r, m);
        assert m == n || (BuiltAt(n) && used > 0 && GraphStopsAt(n + 1, r + used, m));
      }
      if BuiltAt(n) && 0 < used <= MAX_REVISIONS - r && GraphStops(n + 1, r + used) {
        var m: nat :| GraphStopsAt(n + 1, r + used, m);
        assert UsedUp(n, m) == used + UsedUp(n + 1, m);
        assert GraphStopsAt(n, r, m);
      }
    }

    /** What every saved preview meets. */
    lemma YieldedPreview(n: nat, v: VerifiedDraft)
      requires Yields(n, v) && WithinBudget(req, v)
      ensures PreviewOk(req, pool, v)
    {
      hide IsDraft, Merged, Accepted, PlacesOk;
    }

    predicate ValidRequest() {
      && req.job != "" && req.user != "" && !Blank(req.prompt) && req.city != "" && 1 <= DayCount(req) <= 7
      && (req.budget.Some? ==> req.budget.value >= 0)
    }

    /** One pass of the local loop. */
    method LocalPass() returns (error: Option<WorkflowError>)
      requires revisions <= MAX_REVISIONS
      modifies this
      ensures generations == old(generations) + 1 && preview == old(preview) && old(revisions) <= revisions <= MAX_REVISIONS
      ensures error.Some? ==> !LocalSucceeds(old(generations), old(revisions))
      ensures error == Some(ConstraintViolation) ==> old(revisions) == revisions == MAX_REVISIONS
      ensures error.None? && retryPlanning ==>
                && revisions == old(revisions) + 1
                && (LocalSucceeds(old(generations), old(revisions)) <==> LocalSucceeds(generations, revisions))
      ensures error.None? && !retryPlanning ==>
                && revisions == old(revisions) && verified.Some? && PreviewOk(req, pool, verified.value)
                && (LocalSucceeds(old(generations), old(revisions)) <==> Saves(verified.value))
    {
      hide Yields, WithinBudget, LocalSucceeds, PreviewOk, Saves;
      ghost var n, r := generations, revisions;
      error := Plan();
      if error.Some? && error != Some(ConstraintViolation) {
        NothingYielded(n, r);
        return;
      }
      UnfoldLocal(n, r, verified.value);
      if error.None? && passed {
        YieldedPreview(n, verified.value);
      }
    }

    /** One pass of the graph's loop. */
    method GraphPass() returns (error: Option<WorkflowError>)
      requires revisions <= MAX_REVISIONS
      modifies this
      ensures generations == old(generations) + 1 && preview == old(preview) && old(revisions) <= revisions <= MAX_REVISIONS
      ensures error.Some? ==> !GraphSucceeds(old(generations), old(revisions))
      ensures error == Some(ConstraintViolation) ==> old(revisions) > 0 && revisions == MAX_REVISIONS
      ensures error.None? && retryPlanning ==>
                && revisions > old(revisions)
                && (GraphSucceeds(old(generations), old(revisions)) <==> GraphSucceeds(generations, revisions))
      ensures error.None? && !retryPlanning ==>
                && revisions == old(revisions) && verified.Some? && PreviewOk(req, pool, verified.value)
                && Approved(req, pool, citations, verified.value)
                && (GraphSucceeds(old(generations), old(revisions)) <==> Saves(verified.value))
    {
      hide Yields, WithinBudget, GraphSucceeds, PreviewOk, Saves, Approved, Built;
      ghost var n, r := generations, revisions;
      error := Plan();
      if error.Some? && error != Some(ConstraintViolation) {
        NothingYielded(n, r);
        return;
      }
      UnfoldGraph(n, r, verified.value);
      if error.Some? {
        return;
      }
      if passed {
        YieldedPreview(n, verified.value);
      }
      error := ControlledReview();
    }

    /**
     The loop without the review. It ends after at most three generations. `LocalStops` says
     exactly when it succeeds, and then the preview meets schema, city and budget.
     */
    method RunLocal() returns (error: Option<WorkflowError>)
      requires preview.None? && revisions == 0 && generations == 0
      modifies this
      ensures generations <= 3
      ensures error.None? <==> ValidRequest() && LocalStops(0, 0)
      ensures error.None? <==> preview.Some?
      ensures preview != Some("")
      ensures error.None? ==> verified.Some? && PreviewOk(req, pool, verified.value) && preview == deps.save(verified.value)
      ensures error == Some(ConstraintViolation) ==> generations == 3
    {
      hide LocalSucceeds, LocalStops, PreviewOk, ValidRequest;
      LocalExactly(0, 0);
      error := ValidateRequest();
      if error.Some? {
        return;
      }
      retryPlanning := true;
      while retryPlanning
        invariant error.None? && preview.None? && revisions <= MAX_REVISIONS
        invariant generations == revisions + if retryPlanning then 0 else 1
        invariant retryPlanning ==> (LocalSucceeds(0, 0) <==> LocalSucceeds(generations, revisions))
        invariant !retryPlanning ==> verified.Some? && PreviewOk(req, pool, verified.value)
                                     && (LocalSucceeds(0, 0) <==> Saves(verified.value))
        decreases MAX_REVISIONS - revisions, retryPlanning
      {
        error := LocalPass();
        if error.Some? {
          return;
        }
      }
      error := SavePreview();
    }

    /**
     The loop with the review, which may use up two revisions in one pass. It ends after at
     most three generations, and it saves a draft only if the constraint check passed and the
     review approved that same draft. `GraphStops` says exactly when it succeeds.
     */
    method RunGraph() returns (error: Option<WorkflowError>)
      requires preview.None? && revisions == 0 && generations == 0
      modifies this
      ensures generations <= 3
      ensures error.None? <==> ValidRequest() && GraphStops(0, 0)
      ensures error.None? <==> preview.Some?
      ensures preview != Some("")
      ensures error.None? ==> verified.Some? && PreviewOk(req, pool, verified.value) && preview == deps.save(verified.value)
                              && Approved(req, pool, citations, verified.value)
      ensures error == Some(ConstraintViolation) ==> generations >= 2 && revisions == 2
    {
      hide GraphSucceeds, GraphStops, PreviewOk, ValidRequest, Approved;
      GraphExactly(0, 0);
      error := ValidateRequest();
      if error.Some? {
        return;
      }
      retryPlanning := true;
      while retryPlanning
        invariant error.None? && preview.None? && revisions <= MAX_REVISIONS
        invariant generations <= revisions + (if retryPlanning then 0 else 1) && (revisions > 0 ==> generations > 0)
        invariant retryPlanning ==> (GraphSucceeds(0, 0) <==> GraphSucceeds(generations, revisions))
        invariant !retryPlanning ==> verified.Some? && PreviewOk(req, pool, verified.value)
                                     && Approved(req, pool, citations, verified.value)
                                     && (GraphSucceeds(0, 0) <==> Saves(verified.value))
        decreases MAX_REVISIONS - revisions, retryPlanning
      {
        error := GraphPass();
        if error.Some? {
          return;
        }
      }
      error := SavePreview();
    }
  }
}
