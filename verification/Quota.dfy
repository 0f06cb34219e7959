/**
 The accounting of AI quotas: a user's active period is a membership period or else the free
 period of the month, consumption counts up to its limit, and a release gives one back.
 */
module Quota {
  import opened Wrappers

  /******* Months *******/

  /** An instant, by its calendar year and month and the seconds since the month began. */
  datatype Instant = Instant(year: int, month: int, seconds: nat)

  predicate OnCalendar(t: Instant) {
    1 <= t.month <= 12
  }

  /** The number of a month, counted through the years. */
  function MonthNumber(t: Instant): int {
    12 * t.year + t.month - 1
  }

  predicate Before(a: Instant, b: Instant) {
    MonthNumber(a) < MonthNumber(b) || (MonthNumber(a) == MonthNumber(b) && a.seconds < b.seconds)
  }

  function MonthStart(now: Instant): Instant {
    Instant(now.year, now.month, 0)
  }

  function MonthEnd(now: Instant): Instant {
    if now.month == 12 then Instant(now.year + 1, 1, 0) else Instant(now.year, now.month + 1, 0)
  }

  predicate Within(t: Instant, start: Instant, end: Instant) {
    !Before(t, start) && Before(t, end)
  }

  /** The months partition time: an instant lies in its month, and exactly the instants of a month have its bounds. */
  lemma MonthsPartition(a: Instant, b: Instant)
    requires OnCalendar(a) && OnCalendar(b)
    ensures OnCalendar(MonthEnd(a)) && Within(a, MonthStart(a), MonthEnd(a))
    ensures Within(b, MonthStart(a), MonthEnd(a)) <==> MonthStart(b) == MonthStart(a) && MonthEnd(b) == MonthEnd(a)
    ensures MonthStart(b) == MonthStart(a) <==> MonthEnd(b) == MonthEnd(a)
  {
  }

  /******* Periods *******/

  datatype Capability = Generation | Assistant
  datatype Source = Free | Membership

  datatype Period = Period(
    user: string, source: Source, start: Instant, end: Instant,
    generationUsed: int, generationLimit: int, assistantUsed: int, assistantLimit: int)

  const FREE_GENERATION_LIMIT := 1
  const FREE_ASSISTANT_LIMIT := 20

  type Periods = map<nat, Period>

  function Used(p: Period, c: Capability): int {
    if c.Generation? then p.generationUsed else p.assistantUsed
  }

  function Limit(p: Period, c: Capability): int {
    if c.Generation? then p.generationLimit else p.assistantLimit
  }

  function SetUsed(p: Period, c: Capability, used: int): Period {
    if c.Generation? then p.(generationUsed := used) else p.(assistantUsed := used)
  }

  function FreeLimit(c: Capability): int {
    if c.Generation? then FREE_GENERATION_LIMIT else FREE_ASSISTANT_LIMIT
  }

  function NewFree(user: string, now: Instant): Period {
    Period(user, Free, MonthStart(now), MonthEnd(now), 0, FREE_GENERATION_LIMIT, 0, FREE_ASSISTANT_LIMIT)
  }

  /** One counter of a period changed by some amount. */
  function Counted(periods: Periods, k: nat, c: Capability, change: int): Periods
    requires k in periods
  {
    periods[k := SetUsed(periods[k], c, Used(periods[k], c) + change)]
  }

  /** The periods, with the free period of the month under `k` if that is a new key. */
  function WithPeriod(periods: Periods, k: nat, user: string, now: Instant): (r: Periods)
    ensures k in r
  {
    if k in periods then periods else periods[k := NewFree(user, now)]
  }

  predicate IsMembership(p: Period, user: string, now: Instant) {
    p.user == user && p.source.Membership? && Within(now, p.start, p.end)
  }

  predicate IsFree(p: Period, user: string, now: Instant) {
    p.user == user && p.source.Free? && p.start == MonthStart(now) && p.end == MonthEnd(now)
  }

  /** The membership period that ends last; between equal ends the database may take any, here the lowest key. */
  predicate IsActiveMembership(periods: Periods, user: string, now: Instant, k: nat) {
    && k in periods && IsMembership(periods[k], user, now)
    && forall j :: j in periods && IsMembership(periods[j], user, now) ==>
         !Before(periods[k].end, periods[j].end) && (!Before(periods[j].end, periods[k].end) ==> k <= j)
  }

  predicate SameFree(p: Period, q: Period) {
    p.source.Free? && q.source.Free? && p.user == q.user && p.start == q.start
  }

  /** The free periods of a user and month are one at most. */
  ghost predicate FreeUnique(periods: Periods) {
    forall j, k | j in periods && k in periods && SameFree(periods[j], periods[k]) :: j == k
  }

  /** Free periods are months with the free limits. */
  ghost predicate FreeShaped(periods: Periods) {
    forall k :: k in periods && periods[k].source.Free? ==>
      && OnCalendar(periods[k].start) && periods[k].start == MonthStart(periods[k].start) && periods[k].end == MonthEnd(periods[k].start)
      && periods[k].generationLimit == FREE_GENERATION_LIMIT && periods[k].assistantLimit == FREE_ASSISTANT_LIMIT
  }

  ghost predicate InBounds(periods: Periods) {
    forall k, c :: k in periods ==> 0 <= Used(periods[k], c) <= Limit(periods[k], c)
  }

  ghost predicate Sound(periods: Periods) {
    FreeUnique(periods) && FreeShaped(periods) && InBounds(periods)
  }

  /******* The ledger *******/

  /** A consumption that was not released yet. */
  datatype Consumption = Consumption(period: nat, capability: Capability)

  function Outstanding(open: map<nat, Consumption>, period: nat, c: Capability): set<nat> {
    set id | id in open && open[id] == Consumption(period, c)
  }

  /** Each counter is its value at the creation of the period plus the consumptions that are outstanding. */
  ghost predicate Conserved(periods: Periods, base: map<nat, (nat, nat)>, open: map<nat, Consumption>) {
    && base.Keys == periods.Keys
    && (forall id :: id in open ==> open[id].period in periods)
    && forall k, c :: k in periods ==>
         Used(periods[k], c) == (if c.Generation? then base[k].0 else base[k].1) + |Outstanding(open, k, c)|
  }

  datatype Balance = Balance(generation: int, assistant: int, end: Instant)

  lemma OutstandingAdded(open: map<nat, Consumption>, id: nat, added: Consumption, k: nat, c: Capability)
    requires id !in open
    ensures |Outstanding(open[id := added], k, c)| == |Outstanding(open, k, c)| + if added == Consumption(k, c) then 1 else 0
  {
    var n := open[id := added];
    assert Outstanding(n, k, c) == if added == Consumption(k, c) then Outstanding(open, k, c) + {id} else Outstanding(open, k, c);
  }

  lemma OutstandingRemoved(open: map<nat, Consumption>, id: nat, k: nat, c: Capability)
    requires id in open
    ensures |Outstanding(open - {id}, k, c)| == |Outstanding(open, k, c)| - if open[id] == Consumption(k, c) then 1 else 0
  {
    var n := open - {id};
    assert Outstanding(n, k, c) == if open[id] == Consumption(k, c) then Outstanding(open, k, c) - {id} else Outstanding(open, k, c);
  }

  predicate NoMembership(periods: Periods, user: string, now: Instant) {
    forall j :: j in periods ==> !IsMembership(periods[j], user, now)
  }

  /** What is left of the active source: of the membership, or else of the free limits. */
  ghost function ActiveBalance(periods: Periods, user: string, c: Capability, now: Instant): int {
    if k: nat :| IsActiveMembership(periods, user, now, k) then Limit(periods[k], c) - Used(periods[k], c)
    else if k: nat :| k in periods && IsFree(periods[k], user, now) then FreeLimit(c) - Used(periods[k], c)
    else FreeLimit(c)
  }

  /** The period that a consumption counts on: the active membership, or else the free period of the month. */
  predicate Pays(before: Periods, after: Periods, user: string, now: Instant, k: nat)
    requires k in after
  {
    || IsActiveMembership(before, user, now, k)
    || (NoMembership(before, user, now) && IsFree(after[k], user, now))
  }

  /** Instants are ordered by year, month and seconds. */
  lemma BeforeIsCalendar(a: Instant, b: Instant)
    requires OnCalendar(a) && OnCalendar(b)
    ensures Before(a, b) <==>
              || a.year < b.year
              || (a.year == b.year && a.month < b.month)
              || (a.year == b.year && a.month == b.month && a.seconds < b.seconds)
  {
  }

  /**
   The period that pays belongs to the user and is current. It is a membership exactly if the
   user has a current one, and then none of these ends later; otherwise it is the month's free
   period.
   */
  lemma PayingPeriod(before: Periods, after: Periods, user: string, now: Instant, k: nat)
    requires OnCalendar(now) && k in after && Pays(before, after, user, now, k)
    requires k in before ==> after[k].user == before[k].user && after[k].source == before[k].source
                             && after[k].start == before[k].start && after[k].end == before[k].end
    requires IsActiveMembership(before, user, now, k) ==> k in before
    ensures var p := after[k];
            && p.user == user && !Before(now, p.start) && Before(now, p.end)
            && (p.source.Membership? <==> exists j :: j in before && HasMembership(before[j], user, now))
            && (p.source.Membership? ==> forall j | j in before && HasMembership(before[j], user, now) :: !Before(p.end, before[j].end))
            && (p.source.Free? ==> p.start == Instant(now.year, now.month, 0) && p.end == MonthEnd(now))
  {
    MonthsPartition(now, now);
    hide Before;
    if IsActiveMembership(before, user, now, k) {
      assert HasMembership(before[k], user, now);
    } else {
      assert forall j | j in before :: HasMembership(before[j], user, now) ==> IsMembership(before[j], user, now);
    }
  }

  /** A membership purchase of the user whose period has begun and has not ended. */
  predicate HasMembership(p: Period, user: string, now: Instant) {
    p.user == user && p.source == Membership && !Before(now, p.start) && Before(now, p.end)
  }

  /** The uses of each capability, whatever the functions above make of them. */
  predicate UsesBy(p: Period, q: Period, generation: int, assistant: int) {
    q == p.(generationUsed := p.generationUsed + generation, assistantUsed := p.assistantUsed + assistant)
  }

  lemma ActiveIsUnique(periods: Periods, user: string, now: Instant, j: nat, k: nat)
    requires IsActiveMembership(periods, user, now, j) && IsActiveMembership(periods, user, now, k)
    ensures j == k
  {
  }

  lemma MembershipExists(periods: Periods, user: string, now: Instant, k: nat)
    requires IsActiveMembership(periods, user, now, k)
    ensures k in periods
  {
  }

  lemma MembershipBalance(periods: Periods, user: string, c: Capability, now: Instant, k: nat)
    requires IsActiveMembership(periods, user, now, k)
    ensures ActiveBalance(periods, user, c, now) == Limit(periods[k], c) - Used(periods[k], c)
  {
    forall j: nat | IsActiveMembership(periods, user, now, j)
      ensures j == k
    {
      ActiveIsUnique(periods, user, now, j, k);
    }
    hide IsActiveMembership;
  }

  /** Without a membership the balance is that of the free period, also if that has yet to be created. */
  lemma FreeBalance(before: Periods, after: Periods, user: string, c: Capability, now: Instant, k: nat)
    requires NoMembership(before, user, now) && FreeUnique(before) && FreeShaped(before)
    requires k in after && IsFree(after[k], user, now)
    requires (after == before && k in before)
             || (after == before[k := NewFree(user, now)] && forall j :: j in before ==> !IsFree(before[j], user, now))
    ensures ActiveBalance(before, user, c, now) == Limit(after[k], c) - Used(after[k], c)
  {
    assert forall j: nat :: !IsActiveMembership(before, user, now, j);
  }

  lemma FreeIsMonth(periods: Periods, user: string, now: Instant, j: nat)
    requires FreeShaped(periods) && j in periods && periods[j].source.Free? && periods[j].user == user
    requires periods[j].start == MonthStart(now)
    ensures IsFree(periods[j], user, now)
  {
  }

  lemma NothingOutstanding(open: map<nat, Consumption>, k: nat)
    requires forall id :: id in open ==> open[id].period != k
    ensures forall c :: Outstanding(open, k, c) == {}
  {
  }

  /** A new period without consumptions keeps the ledger valid. */
  lemma AddingKeeps(periods: Periods, base: map<nat, (nat, nat)>, open: map<nat, Consumption>, k: nat, p: Period)
    requires Sound(periods) && Conserved(periods, base, open) && k !in periods
    requires p.generationUsed == 0 && p.assistantUsed == 0 && p.generationLimit >= 0 && p.assistantLimit >= 0
    requires p.source.Membership? || exists now :: OnCalendar(now) && p == NewFree(p.user, now)
    requires forall j | j in periods :: !SameFree(periods[j], p)
    ensures var n := periods[k := p];
            Sound(n) && Conserved(n, base[k := (0, 0)], open)
  {
    NothingOutstanding(open, k);
    assert |Outstanding(open, k, Generation)| == 0 && |Outstanding(open, k, Assistant)| == 0;
    hide Outstanding;
  }

  predicate Holds(open: map<nat, Consumption>, id: nat, k: nat, c: Capability) {
    id in open && open[id] == Consumption(k, c)
  }

  lemma ReleaseKeeps(periods: Periods, base: map<nat, (nat, nat)>, open: map<nat, Consumption>, k: nat, c: Capability, id: nat)
    requires Sound(periods) && Conserved(periods, base, open) && k in periods
    ensures Holds(open, id, k, c) ==>
              && Used(periods[k], c) > 0
              && Sound(Counted(periods, k, c, -1)) && Conserved(Counted(periods, k, c, -1), base, open - {id})
  {
    if Holds(open, id, k, c) {
      assert id in Outstanding(open, k, c) && |Outstanding(open, k, c)| > 0;
      forall j, d
        ensures |Outstanding(open - {id}, j, d)| == |Outstanding(open, j, d)| - if j == k && d == c then 1 else 0
      {
        OutstandingRemoved(open, id, j, d);
      }
      CountKeeps(periods, base, open, k, c, Used(periods[k], c) - 1, open - {id});
    }
  }

  /** Changing one counter together with the outstanding consumptions keeps the ledger valid. */
  lemma CountKeeps(periods: Periods, base: map<nat, (nat, nat)>, open: map<nat, Consumption>, k: nat, c: Capability, used: int,
                   now: map<nat, Consumption>)
    requires Sound(periods) && Conserved(periods, base, open)
    requires k in periods && 0 <= used <= Limit(periods[k], c)
    requires forall id :: id in now ==> now[id].period in periods
    requires forall j, d :: |Outstanding(now, j, d)|
                            == |Outstanding(open, j, d)| + if j == k && d == c then used - Used(periods[k], c) else 0
    ensures var n := Counted(periods, k, c, used - Used(periods[k], c));
            Sound(n) && Conserved(n, base, now)
  {
    hide Outstanding;
  }

  /**
   The periods of all users. `base` and `open` are history: the initial counters of each period
   and the consumptions that callers still hold. The user's row lock makes each call atomic.
   */
  class Entitlements {
    var periods: Periods
    ghost var base: map<nat, (nat, nat)>
    ghost var open: map<nat, Consumption>

    ghost predicate Valid()
      reads this
    {
      Sound(periods) && Conserved(periods, base, open)
    }

    constructor ()
      ensures Valid() && periods == map[] && open == map[]
    {
      periods, base, open := map[], map[], map[];
    }

    /** A membership purchase adds a period. */
    method GrantMembership(key: nat, user: string, start: Instant, end: Instant, generation: nat, assistant: nat)
      requires Valid() && key !in periods
      modifies this
      ensures Valid() && open == old(open)
      ensures periods == old(periods)[key := Period(user, Membership, start, end, 0, generation, 0, assistant)]
    {
      var p := Period(user, Membership, start, end, 0, generation, 0, assistant);
      AddingKeeps(periods, base, open, key, p);
      periods := periods[key := p];
      base := base[key := (0, 0)];
    }

    method ActiveMembership(user: string, now: Instant) returns (k: Option<nat>)
      ensures match k
              case Some(key) => IsActiveMembership(periods, user, now, key)
              case None => forall j :: j in periods ==> !IsMembership(periods[j], user, now)
    {
      var left := periods.Keys;
      k := None;
      while left != {}
        invariant left <= periods.Keys
        invariant k.Some? ==> k.value in periods && IsMembership(periods[k.value], user, now)
        invariant forall j :: j in periods && IsMembership(periods[j], user, now) && j !in left ==>
                    k.Some? && !Before(periods[k.value].end, periods[j].end)
                    && (!Before(periods[j].end, periods[k.value].end) ==> k.value <= j)
        decreases |left|
      {
        var j :| j in left;
        left := left - {j};
        if IsMembership(periods[j], user, now)
           && (k.None? || Before(periods[k.value].end, periods[j].end)
               || (!Before(periods[j].end, periods[k.value].end) && j < k.value)) {
          k := Some(j);
        }
      }
    }

    /** The free period of the month, created under `newKey` if there is none yet. */
    method FreePeriod(user: string, now: Instant, newKey: nat) returns (k: nat)
      requires Valid() && OnCalendar(now) && newKey !in periods
      modifies this
      ensures Valid() && k in periods && IsFree(periods[k], user, now) && open == old(open)
      ensures periods == WithPeriod(old(periods), k, user, now)
      ensures k in old(periods) || (k == newKey && forall j :: j in old(periods) ==> !IsFree(old(periods)[j], user, now))
    {
      if j :| j in periods && IsFree(periods[j], user, now) {
        return j;
      }
      forall j | j in periods
        ensures !SameFree(periods[j], NewFree(user, now))
      {
        if SameFree(periods[j], NewFree(user, now)) {
          FreeIsMonth(periods, user, now, j);
        }
      }
      AddingKeeps(periods, base, open, newKey, NewFree(user, now));
      hide FreeUnique, FreeShaped, InBounds, Conserved;
      periods := periods[newKey := NewFree(user, now)];
      base := base[newKey := (0, 0)];
      return newKey;
    }

    /** The period that pays: the active membership, or else the free period of the month. */
    method ActivePeriod(user: string, c: Capability, now: Instant, newKey: nat) returns (k: nat)
      requires Valid() && OnCalendar(now) && newKey !in periods
      modifies this
      ensures Valid() && k in periods && open == old(open)
      ensures Pays(old(periods), periods, user, now, k)
      ensures periods == WithPeriod(old(periods), k, user, now)
      ensures ActiveBalance(old(periods), user, c, now) == Limit(periods[k], c) - Used(periods[k], c)
    {
      hide Conserved, ActiveBalance, IsActiveMembership;
      var membership := ActiveMembership(user, now);
      if membership.Some? {
        k := membership.value;
        assert k in periods by { MembershipExists(periods, user, now, k); }
        MembershipBalance(periods, user, c, now, k);
      } else {
        k := FreePeriod(user, now, newKey);
        FreeBalance(old(periods), periods, user, c, now, k);
      }
    }

    /**
     Consumes one use of the active period. It succeeds exactly if the active source has a
     positive balance, and then changes that one counter by one.
     */
    method Consume(user: string, c: Capability, now: Instant, newKey: nat, ghost id: nat)
      returns (ok: bool, k: nat, remaining: int)
      requires Valid() && OnCalendar(now) && newKey !in periods && id !in open
      modifies this
      ensures Valid()
      ensures ok <==> ActiveBalance(old(periods), user, c, now) > 0
      ensures k in periods && Pays(old(periods), periods, user, now, k)
      ensures var kept := WithPeriod(old(periods), k, user, now); periods == if ok then Counted(kept, k, c, 1) else kept
      ensures ok ==> open == old(open)[id := Consumption(k, c)] && remaining == ActiveBalance(old(periods), user, c, now) - 1
      ensures var p := periods[k];
              && p.user == user && !Before(now, p.start) && Before(now, p.end)
              && (p.source.Membership? <==> exists j :: j in old(periods) && HasMembership(old(periods)[j], user, now))
              && (p.source.Free? ==> p.start == Instant(now.year, now.month, 0) && p.end == MonthEnd(now)
                                     && p.generationLimit == 1 && p.assistantLimit == 20)
      ensures k in old(periods) ==> UsesBy(old(periods)[k], periods[k], if ok && c == Generation then 1 else 0, if ok && c == Assistant then 1 else 0)
      ensures k !in old(periods) ==> periods[k].generationUsed == (if ok && c == Generation then 1 else 0)
                                     && periods[k].assistantUsed == (if ok && c == Assistant then 1 else 0)
      ensures forall j | j != k :: (j in periods <==> j in old(periods)) && (j in periods ==> periods[j] == old(periods)[j])
      ensures !ok ==> if c == Generation then periods[k].generationUsed >= periods[k].generationLimit
                      else periods[k].assistantUsed >= periods[k].assistantLimit
      ensures ok ==> remaining == if c == Generation then periods[k].generationLimit - periods[k].generationUsed
                                  else periods[k].assistantLimit - periods[k].assistantUsed
      ensures !ok ==> open == old(open)
    {
      k := ActivePeriod(user, c, now, newKey);
      hide Sound, Conserved, IsActiveMembership, NoMembership, ActiveBalance, WithPeriod;
      var used, limit := Used(periods[k], c), Limit(periods[k], c);
      if used >= limit {
        return false, k, 0;
      }
      Increment(k, c, id);
      return true, k, limit - used - 1;
    }

    method Increment(k: nat, c: Capability, ghost id: nat)
      requires Valid() && k in periods && Used(periods[k], c) < Limit(periods[k], c) && id !in open
      modifies this
      ensures Valid() && open == old(open)[id := Consumption(k, c)]
      ensures periods == Counted(old(periods), k, c, 1)
    {
      hide FreeUnique, FreeShaped, Outstanding;
      ghost var now := open[id := Consumption(k, c)];
      forall j, d
        ensures |Outstanding(now, j, d)| == |Outstanding(open, j, d)| + if j == k && d == c then 1 else 0
      {
        OutstandingAdded(open, id, Consumption(k, c), j, d);
      }
      CountKeeps(periods, base, open, k, c, Used(periods[k], c) + 1, now);
      hide InBounds, Conserved;
      periods := Counted(periods, k, c, 1);
      open := now;
    }

    /**
     Gives a consumption back: the counter goes down by one, but not below zero, and a period
     that is gone is left alone. The ledger stays conserved if the consumption was outstanding.
     */
    method Release(k: nat, c: Capability, ghost id: nat)
      requires Valid()
      modifies this
      ensures periods == if k in old(periods) && Used(old(periods)[k], c) > 0
                         then Counted(old(periods), k, c, -1) else old(periods)
      ensures old(Holds(open, id, k, c)) ==> Valid() && open == old(open) - {id}
      ensures forall j | j != k :: (j in periods <==> j in old(periods)) && (j in periods ==> periods[j] == old(periods)[j])
      ensures k in old(periods) ==>
                && k in periods
                && var p := old(periods)[k];
                   UsesBy(p, periods[k], if c == Generation && p.generationUsed > 0 then -1 else 0,
                          if c == Assistant && p.assistantUsed > 0 then -1 else 0)
    {
      if k !in periods {
        return;
      }
      var used := Used(periods[k], c);
      ReleaseKeeps(periods, base, open, k, c, id);
      hide Sound, Conserved;
      if used > 0 {
        periods := Counted(periods, k, c, -1);
        open := open - {id};
      }
    }

    /** The free balance of the month, and that of the active membership if there is one. */
    method Balances(user: string, now: Instant) returns (free: Balance, membership: Option<Balance>)
      requires Valid() && OnCalendar(now)
      ensures membership.Some? <==> !NoMembership(periods, user, now)
      ensures var active := if membership.Some? then membership.value else free;
              && active.generation == ActiveBalance(periods, user, Generation, now)
              && active.assistant == ActiveBalance(periods, user, Assistant, now)
      ensures free.end == MonthEnd(now)
      ensures forall j | j in periods && IsFree(periods[j], user, now) ::
                free.generation == FREE_GENERATION_LIMIT - periods[j].generationUsed
                && free.assistant == FREE_ASSISTANT_LIMIT - periods[j].assistantUsed
      ensures (forall j | j in periods :: !IsFree(periods[j], user, now)) ==>
                free.generation == FREE_GENERATION_LIMIT && free.assistant == FREE_ASSISTANT_LIMIT
      ensures membership.Some? ==> exists k :: IsActiveMembership(periods, user, now, k) && membership.value.end == periods[k].end
    {
      free := Balance(FREE_GENERATION_LIMIT, FREE_ASSISTANT_LIMIT, MonthEnd(now));
      if j :| j in periods && IsFree(periods[j], user, now) {
        if NoMembership(periods, user, now) {
          FreeBalance(periods, periods, user, Generation, now, j);
          FreeBalance(periods, periods, user, Assistant, now, j);
        }
        free := Balance(FREE_GENERATION_LIMIT - periods[j].generationUsed, FREE_ASSISTANT_LIMIT - periods[j].assistantUsed, MonthEnd(now));
      }
      assert NoMembership(periods, user, now) ==>
        free.generation == ActiveBalance(periods, user, Generation, now) && free.assistant == ActiveBalance(periods, user, Assistant, now);
      var k := ActiveMembership(user, now);
      membership := None;
      if k.Some? {
        var p := periods[k.value];
        MembershipBalance(periods, user, Generation, now, k.value);
        MembershipBalance(periods, user, Assistant, now, k.value);
        membership := Some(Balance(p.generationLimit - p.generationUsed, p.assistantLimit - p.assistantUsed, p.end));
      }
    }
  }
}
