/**
 Reciprocal rank fusion of the dense and the keyword hits, and the status decision on the result.
 Scores are real numbers: floating-point rounding is not part of the model.
 */
module Fusion {
  import opened Sequences
  import opened Text

  datatype Metadata = Metadata(hash: string, city: string, visibility: string, status: string, domain: string, user: string)
  datatype Hit = Hit(metadata: Metadata, content: string)

  /** An empty city, domain or user does not filter. */
  datatype Filter = Filter(city: string, visibility: string, status: string, domain: string, user: string)

  const RRF_K := 60
  const STORE_TOP_K := 20
  const FINAL_TOP_K := 8
  const BEST_POSSIBLE: real := 2.0 / 61.0

  /** The smallest normalised score: a single hit at the last rank of one store. */
  const FLOOR: real := 61.0 / 160.0

  predicate Matches(f: Filter, m: Metadata) {
    && (f.city != "" ==> m.city == f.city)
    && m.visibility == f.visibility && m.status == f.status
    && (f.domain != "" ==> m.domain == f.domain)
    && (f.user != "" ==> m.user == f.user)
  }

  /** What a hit at a rank, counted from 1, adds to its chunk's score. */
  function Share(rank: nat): real {
    1.0 / (RRF_K + rank) as real
  }

  predicate Scores(f: Filter, hit: Hit, hash: string) {
    Matches(f, hit.metadata) && hit.metadata.hash == hash
  }

  /** The sum of the shares of the matching hits of a chunk among the first `n` of a list. */
  function Total(f: Filter, hits: seq<Hit>, n: nat, hash: string): real
    requires n <= |hits|
  {
    if n == 0 then 0.0
    else Total(f, hits, n - 1, hash) + if Scores(f, hits[n - 1], hash) then Share(n) else 0.0
  }

  /** The fused score of a chunk: its shares in both lists. */
  function Fused(f: Filter, dense: seq<Hit>, bm25: seq<Hit>, hash: string): real {
    Total(f, dense, |dense|, hash) + Total(f, bm25, |bm25|, hash)
  }

  predicate Occurs(f: Filter, hits: seq<Hit>, n: nat, hash: string)
    requires n <= |hits|
  {
    exists k :: 0 <= k < n && Scores(f, hits[k], hash)
  }

  predicate Found(f: Filter, dense: seq<Hit>, bm25: seq<Hit>, hash: string) {
    Occurs(f, dense, |dense|, hash) || Occurs(f, bm25, |bm25|, hash)
  }

  /** The first hit of a chunk among the first `n` of a list. */
  ghost predicate FirstIn(f: Filter, hits: seq<Hit>, n: nat, hash: string, hit: Hit)
    requires n <= |hits|
  {
    exists k :: 0 <= k < n && hits[k] == hit && Scores(f, hits[k], hash) && forall j | 0 <= j < k :: !Scores(f, hits[j], hash)
  }

  /** The first hit of a chunk, dense hits before keyword hits. */
  ghost predicate FirstHit(f: Filter, dense: seq<Hit>, bm25: seq<Hit>, hash: string, hit: Hit) {
    if Occurs(f, dense, |dense|, hash) then FirstIn(f, dense, |dense|, hash, hit) else FirstIn(f, bm25, |bm25|, hash, hit)
  }

  /** A chunk with the score so far; the first hit of a chunk is kept. */
  datatype Entry = Entry(hit: Hit, score: real)

  /** The dictionary with its keys in order of insertion. */
  ghost predicate Ordered(merged: map<string, Entry>, keys: seq<string>) {
    && Distinct(keys)
    && (forall key :: key in keys <==> key in merged)
    && forall key :: key in merged ==> merged[key].hit.metadata.hash == key
  }

  /** The dictionary `result` is `merged` with the first `n` hits of a list added. */
  ghost predicate Adds(f: Filter, hits: seq<Hit>, n: nat, merged: map<string, Entry>, result: map<string, Entry>)
    requires n <= |hits|
  {
    && (forall key :: key in result <==> key in merged || Occurs(f, hits, n, key))
    && forall key :: key in result ==>
         && (if key in merged then result[key].hit == merged[key].hit else FirstIn(f, hits, n, key, result[key].hit))
         && result[key].score == (if key in merged then merged[key].score else 0.0) + Total(f, hits, n, key)
  }

  /** The entry of a chunk after a matching hit at a rank. */
  function Added(before: map<string, Entry>, hit: Hit, rank: nat): Entry {
    var key := hit.metadata.hash;
    if key in before then before[key].(score := before[key].score + Share(rank)) else Entry(hit, 0.0 + Share(rank))
  }

  /** Adds one list to the dictionary. */
  method Merge(f: Filter, hits: seq<Hit>, merged: map<string, Entry>, keys: seq<string>)
    returns (result: map<string, Entry>, order: seq<string>)
    requires Ordered(merged, keys)
    ensures Ordered(result, order) && keys <= order && Adds(f, hits, |hits|, merged, result)
  {
    result, order := merged, keys;
    for n := 0 to |hits|
      invariant Ordered(result, order) && keys <= order && Adds(f, hits, n, merged, result)
    {
      hide Adds, Matches, Share;
      var hit := hits[n];
      AddsNext(f, hits, n, merged, result);
      if Matches(f, hit.metadata) {
        var key := hit.metadata.hash;
        if key !in result {
          order := order + [key];
        }
        result := result[key := Added(result, hit, n + 1)];
      }
    }
  }

  lemma AddsNext(f: Filter, hits: seq<Hit>, n: nat, merged: map<string, Entry>, before: map<string, Entry>)
    requires n < |hits| && Adds(f, hits, n, merged, before)
    requires forall key :: key in merged ==> merged[key].hit.metadata.hash == key
    ensures var hit := hits[n];
            Adds(f, hits, n + 1, merged,
                 if Matches(f, hit.metadata) then before[hit.metadata.hash := Added(before, hit, n + 1)] else before)
  {
    OccursNext(f, hits, n);
    FirstStays(f, hits, n, before);
    var key := hits[n].metadata.hash;
    if Matches(f, hits[n].metadata) && !Occurs(f, hits, n, key) {
      NoShareBefore(f, hits, n, key);
      FirstHere(f, hits, n, key);
    }
    assert forall k :: Total(f, hits, n + 1, k) == Total(f, hits, n, k) + if Scores(f, hits[n], k) then Share(n + 1) else 0.0;
    hide Occurs, Share, Matches, FirstIn, Total;
  }

  lemma OccursNext(f: Filter, hits: seq<Hit>, n: nat)
    requires n < |hits|
    ensures forall key :: Occurs(f, hits, n + 1, key) <==> Occurs(f, hits, n, key) || Scores(f, hits[n], key)
  {
  }

  lemma FirstStays(f: Filter, hits: seq<Hit>, n: nat, entries: map<string, Entry>)
    requires n < |hits|
    ensures forall key | key in entries && FirstIn(f, hits, n, key, entries[key].hit) ::
              FirstIn(f, hits, n + 1, key, entries[key].hit)
  {
  }

  lemma FirstHere(f: Filter, hits: seq<Hit>, n: nat, hash: string)
    requires n < |hits| && !Occurs(f, hits, n, hash) && Scores(f, hits[n], hash)
    ensures FirstIn(f, hits, n + 1, hash, hits[n])
  {
    assert forall j | 0 <= j < n :: !Scores(f, hits[j], hash);
  }

  lemma {:induction false} NoShareBefore(f: Filter, hits: seq<Hit>, n: nat, hash: string)
    requires n <= |hits| && !Occurs(f, hits, n, hash)
    ensures Total(f, hits, n, hash) == 0.0
  {
    if n > 0 {
      assert !Scores(f, hits[n - 1], hash);
      NoShareBefore(f, hits, n - 1, hash);
    }
  }

  /******* Ranking *******/

  function ScoreOf(merged: map<string, Entry>, key: string): real {
    if key in merged then merged[key].score else 0.0
  }

  /** The key at position `a` is ranked before the one at `b`: it scores more, or as much and came first. */
  predicate Better(merged: map<string, Entry>, keys: seq<string>, a: nat, b: nat)
    requires a < |keys| && b < |keys|
  {
    var x, y := ScoreOf(merged, keys[a]), ScoreOf(merged, keys[b]);
    x > y || (x == y && a < b)
  }

  /** The first `n` positions in the order of their ranks. */
  ghost predicate IsOrder(merged: map<string, Entry>, keys: seq<string>, n: nat, order: seq<nat>)
    requires n <= |keys|
  {
    && |order| == n
    && (forall i | 0 <= i < n :: order[i] < n)
    && (forall a: nat | a < n :: a in order)
    && forall i, j | 0 <= i < j < n :: Better(merged, keys, order[i], order[j])
  }

  /** Where position `a` goes: after all positions that score at least as much, so equal scores keep their order. */
  function Place(merged: map<string, Entry>, keys: seq<string>, order: seq<nat>, a: nat): (p: nat)
    requires a < |keys| && forall i | 0 <= i < |order| :: order[i] < |keys|
    ensures p <= |order|
    ensures p > 0 ==> ScoreOf(merged, keys[order[p - 1]]) >= ScoreOf(merged, keys[a])
    ensures forall i | p <= i < |order| :: ScoreOf(merged, keys[order[i]]) < ScoreOf(merged, keys[a])
  {
    if order == [] then 0
    else if ScoreOf(merged, keys[order[|order| - 1]]) >= ScoreOf(merged, keys[a]) then |order|
    else Place(merged, keys, order[..|order| - 1], a)
  }

  function Inserted(order: seq<nat>, a: nat, p: nat): (r: seq<nat>)
    requires p <= |order|
    ensures |r| == |order| + 1
    ensures forall i | 0 <= i < |r| :: r[i] == if i < p then order[i] else if i == p then a else order[i - 1]
  {
    order[..p] + [a] + order[p..]
  }

  lemma InsertedElements(order: seq<nat>, a: nat, p: nat)
    requires p <= |order|
    ensures forall k :: k in Inserted(order, a, p) <==> k in order || k == a
  {
    var r := Inserted(order, a, p);
    assert r[p] == a;
    forall i | 0 <= i < |order|
      ensures order[i] in r
    {
      assert order[i] == r[if i < p then i else i + 1];
    }
  }

  /** The positions before the place are better than the new one, and it is better than those after. */
  lemma PlaceSplits(merged: map<string, Entry>, keys: seq<string>, n: nat, order: seq<nat>)
    requires n < |keys| && IsOrder(merged, keys, n, order)
    ensures var p := Place(merged, keys, order, n);
            && (forall i | 0 <= i < p :: Better(merged, keys, order[i], n))
            && forall i | p <= i < n :: Better(merged, keys, n, order[i])
  {
    var p := Place(merged, keys, order, n);
    hide ScoreOf;
    forall i | 0 <= i < p
      ensures Better(merged, keys, order[i], n)
    {
      assert i == p - 1 || Better(merged, keys, order[i], order[p - 1]);
    }
  }

  lemma InsertKeepsOrder(merged: map<string, Entry>, keys: seq<string>, n: nat, order: seq<nat>)
    requires n < |keys| && IsOrder(merged, keys, n, order)
    ensures IsOrder(merged, keys, n + 1, Inserted(order, n, Place(merged, keys, order, n)))
  {
    var p := Place(merged, keys, order, n);
    var r := Inserted(order, n, p);
    InsertedElements(order, n, p);
    PlaceSplits(merged, keys, n, order);
    hide Inserted, Place, Better;
    forall i, j | 0 <= i < j < n + 1
      ensures Better(merged, keys, r[i], r[j])
    {
      if i < p && j < p {
      } else if i == p {
      } else if j == p {
      }
    }
  }

  /** The keys by descending score, equal scores in the order of insertion. */
  ghost predicate IsRanking(merged: map<string, Entry>, keys: seq<string>, ranked: seq<string>) {
    exists order :: IsOrder(merged, keys, |keys|, order) && Picks(keys, order, ranked)
  }

  ghost predicate Picks(keys: seq<string>, order: seq<nat>, ranked: seq<string>) {
    |ranked| == |order| && forall i | 0 <= i < |order| :: order[i] < |keys| && ranked[i] == keys[order[i]]
  }

  method Rank(keys: seq<string>, merged: map<string, Entry>) returns (ranked: seq<string>)
    ensures IsRanking(merged, keys, ranked)
  {
    var order: seq<nat> := [];
    for n := 0 to |keys|
      invariant IsOrder(merged, keys, n, order)
    {
      InsertKeepsOrder(merged, keys, n, order);
      order := Inserted(order, n, Place(merged, keys, order, n));
    }
    ranked := seq(|order|, i requires 0 <= i < |order| && order[i] < |keys| => keys[order[i]]);
    assert Picks(keys, order, ranked);
  }

  ghost predicate Descending(keys: seq<string>, merged: map<string, Entry>) {
    forall i, j | 0 <= i < j < |keys| :: ScoreOf(merged, keys[i]) >= ScoreOf(merged, keys[j])
  }

  /** A ranking loses and repeats no key. */
  lemma RankingIsComplete(merged: map<string, Entry>, keys: seq<string>, ranked: seq<string>)
    requires IsRanking(merged, keys, ranked) && Ordered(merged, keys)
    ensures |ranked| == |keys| && Distinct(ranked) && (forall key :: key in ranked <==> key in merged)
    ensures Descending(ranked, merged)
  {
    var order :| IsOrder(merged, keys, |keys|, order) && Picks(keys, order, ranked);
    forall i, j | 0 <= i < j < |ranked|
      ensures ranked[i] != ranked[j] && ScoreOf(merged, ranked[i]) >= ScoreOf(merged, ranked[j])
    {
      assert Better(merged, keys, order[i], order[j]);
      assert order[i] != order[j];
    }
    forall key | key in keys
      ensures key in ranked
    {
      var a: nat :| a < |keys| && keys[a] == key;
      assert a in order;
      var i :| 0 <= i < |order| && order[i] == a;
      assert ranked[i] == key;
    }
  }

  datatype Context = Context(content: string, hash: string, score: real)

  ghost predicate FirstContent(f: Filter, dense: seq<Hit>, bm25: seq<Hit>, c: Context) {
    exists hit :: FirstHit(f, dense, bm25, c.hash, hit) && hit.content == c.content
  }

  /**
   The fused contexts: the chunks with the best sums of shares over both lists, at most eight,
   in descending order, each with its first hit's content and its normalised score. Whatever is left out scores no more.
   */
  ghost predicate IsFusion(f: Filter, dense: seq<Hit>, bm25: seq<Hit>, contexts: seq<Context>) {
    && |contexts| <= FINAL_TOP_K
    && (forall i, j | 0 <= i < j < |contexts| :: contexts[i].hash != contexts[j].hash && contexts[i].score >= contexts[j].score)
    && (forall i | 0 <= i < |contexts| ::
          && Found(f, dense, bm25, contexts[i].hash) && FirstContent(f, dense, bm25, contexts[i])
          && contexts[i].score == Fused(f, dense, bm25, contexts[i].hash) / BEST_POSSIBLE)
    && (forall hash :: Found(f, dense, bm25, hash) ==>
          || (exists i :: 0 <= i < |contexts| && contexts[i].hash == hash)
          || (|contexts| == FINAL_TOP_K && Fused(f, dense, bm25, hash) / BEST_POSSIBLE <= contexts[FINAL_TOP_K - 1].score))
  }

  /** The dictionary of both lists: the chunks found with their fused scores. */
  method MergeBoth(f: Filter, dense: seq<Hit>, bm25: seq<Hit>) returns (merged: map<string, Entry>, keys: seq<string>)
    ensures Ordered(merged, keys)
    ensures forall key :: key in merged <==> Found(f, dense, bm25, key)
    ensures forall key :: key in merged ==>
              merged[key].score == Fused(f, dense, bm25, key) && FirstHit(f, dense, bm25, key, merged[key].hit)
  {
    merged, keys := Merge(f, dense, map[], []);
    merged, keys := Merge(f, bm25, merged, keys);
    TotalWhenAbsent(f, dense);
    hide Total, Occurs, Ordered, FirstIn;
  }

  method Fuse(f: Filter, dense: seq<Hit>, bm25: seq<Hit>) returns (contexts: seq<Context>)
    ensures IsFusion(f, dense, bm25, contexts)
  {
    hide Fused, Found, IsFusion, FirstHit;
    var merged, keys := MergeBoth(f, dense, bm25);
    var ranked := Rank(keys, merged);
    RankingIsComplete(merged, keys, ranked);
    var top := if |ranked| <= FINAL_TOP_K then ranked else ranked[..FINAL_TOP_K];
    hide Ordered, Distinct, Descending;
    assert forall i | 0 <= i < |top| :: top[i] in merged by {
      assert forall i | 0 <= i < |top| :: top[i] == ranked[i] && ranked[i] in ranked;
    }
    contexts := seq(|top|, i requires 0 <= i < |top| && top[i] in merged =>
      Context(merged[top[i]].hit.content, top[i], merged[top[i]].score / BEST_POSSIBLE));
    TopIsFusion(f, dense, bm25, merged, ranked, top, contexts);
  }

  lemma TotalWhenAbsent(f: Filter, hits: seq<Hit>)
    ensures forall key :: !Occurs(f, hits, |hits|, key) ==> Total(f, hits, |hits|, key) == 0.0
  {
    forall key | !Occurs(f, hits, |hits|, key)
      ensures Total(f, hits, |hits|, key) == 0.0
    {
      NoShareBefore(f, hits, |hits|, key);
    }
  }

  lemma TopIsFusion(f: Filter, dense: seq<Hit>, bm25: seq<Hit>, merged: map<string, Entry>, ranked: seq<string>,
                    top: seq<string>, contexts: seq<Context>)
    requires forall key :: key in merged <==> Found(f, dense, bm25, key)
    requires forall key :: key in merged ==>
               merged[key].score == Fused(f, dense, bm25, key) && FirstHit(f, dense, bm25, key, merged[key].hit)
    requires Distinct(ranked) && (forall key :: key in ranked <==> key in merged) && Descending(ranked, merged)
    requires top == if |ranked| <= FINAL_TOP_K then ranked else ranked[..FINAL_TOP_K]
    requires |contexts| == |top|
    requires forall i | 0 <= i < |top| :: contexts[i] == Context(merged[top[i]].hit.content, top[i], merged[top[i]].score / BEST_POSSIBLE)
    ensures IsFusion(f, dense, bm25, contexts)
  {
    hide Found, Fused, FirstHit;
    forall i | 0 <= i < |contexts|
      ensures FirstContent(f, dense, bm25, contexts[i])
    {
      assert FirstHit(f, dense, bm25, contexts[i].hash, merged[top[i]].hit);
    }
    forall i, j | 0 <= i < j < |contexts|
      ensures contexts[i].hash != contexts[j].hash && contexts[i].score >= contexts[j].score
    {
      assert top[i] == ranked[i] && top[j] == ranked[j];
      Normalise(merged[top[j]].score, merged[top[i]].score);
    }
    forall hash | Found(f, dense, bm25, hash)
      ensures || (exists i :: 0 <= i < |contexts| && contexts[i].hash == hash)
              || (|contexts| == FINAL_TOP_K && Fused(f, dense, bm25, hash) / BEST_POSSIBLE <= contexts[FINAL_TOP_K - 1].score)
    {
      assert hash in ranked;
      var k :| 0 <= k < |ranked| && ranked[k] == hash;
      if k < |top| {
        assert contexts[k].hash == hash;
      } else {
        Normalise(merged[hash].score, merged[ranked[FINAL_TOP_K - 1]].score);
      }
    }
  }

  lemma Normalise(a: real, b: real)
    ensures a <= b <==> a / BEST_POSSIBLE <= b / BEST_POSSIBLE
  {
    assert a / BEST_POSSIBLE == a * 30.5 && b / BEST_POSSIBLE == b * 30.5;
  }

  /******* What is served, by the fields of hits and filter *******/

  /** A hit of the lists with this chunk and content, from where the filter says. */
  ghost predicate ServedFrom(f: Filter, dense: seq<Hit>, bm25: seq<Hit>, c: Context, hit: Hit) {
    && (hit in dense || hit in bm25)
    && hit.metadata.hash == c.hash && hit.content == c.content
    && hit.metadata.visibility == f.visibility && hit.metadata.status == f.status
    && (f.city == "" || hit.metadata.city == f.city)
    && (f.domain == "" || hit.metadata.domain == f.domain)
    && (f.user == "" || hit.metadata.user == f.user)
  }

  ghost predicate Served(f: Filter, dense: seq<Hit>, bm25: seq<Hit>, c: Context) {
    exists hit :: ServedFrom(f, dense, bm25, c, hit)
  }

  /**
   Every context comes from a hit whose visibility and status are the filter's, and whose city,
   domain and user are too where the filter names them. So no other user's chunk is served.
   */
  lemma ServesOnlyFiltered(f: Filter, dense: seq<Hit>, bm25: seq<Hit>, contexts: seq<Context>, i: nat)
    requires IsFusion(f, dense, bm25, contexts) && i < |contexts|
    ensures Served(f, dense, bm25, contexts[i])
  {
    hide Fused, Found;
    assert FirstContent(f, dense, bm25, contexts[i]);
    var hit :| FirstHit(f, dense, bm25, contexts[i].hash, hit) && hit.content == contexts[i].content;
    assert ServedFrom(f, dense, bm25, contexts[i], hit);
  }

  /**
   Conversely, the chunk of every such hit is served, unless the eight contexts that are served
   each score at least as much as the chunk does, which is at least what the hit's rank is worth.
   */
  lemma ServesAllFiltered(f: Filter, dense: seq<Hit>, bm25: seq<Hit>, contexts: seq<Context>, hits: seq<Hit>, k: nat)
    requires IsFusion(f, dense, bm25, contexts) && (hits == dense || hits == bm25) && k < |hits|
    requires var m := hits[k].metadata;
             && m.visibility == f.visibility && m.status == f.status
             && (f.city == "" || m.city == f.city) && (f.domain == "" || m.domain == f.domain) && (f.user == "" || m.user == f.user)
    ensures || (exists i :: 0 <= i < |contexts| && contexts[i].hash == hits[k].metadata.hash)
            || (|contexts| == 8 && forall i | 0 <= i < 8 ::
                  contexts[i].score >= Fused(f, dense, bm25, hits[k].metadata.hash) / (2.0 / 61.0) >= (1.0 / (61 + k) as real) / (2.0 / 61.0))
  {
    var hash := hits[k].metadata.hash;
    assert Scores(f, hits[k], hash);
    assert Occurs(f, hits, |hits|, hash);
    TotalHolds(f, hits, |hits|, k);
    TotalIsPositive(f, dense, |dense|, hash);
    TotalIsPositive(f, bm25, |bm25|, hash);
    Normalise(1.0 / (61 + k) as real, Fused(f, dense, bm25, hash));
    assert Found(f, dense, bm25, hash);
    hide Total, Occurs, Scores;
  }

  lemma {:induction false} TotalIsPositive(f: Filter, hits: seq<Hit>, n: nat, hash: string)
    requires n <= |hits|
    ensures Total(f, hits, n, hash) >= 0.0
  {
    if n > 0 {
      TotalIsPositive(f, hits, n - 1, hash);
      SharePositive(n);
    }
  }

  lemma SharePositive(rank: nat)
    ensures Share(rank) > 0.0
  {
    var d := (RRF_K + rank) as real;
    assert d > 0.0 && Share(rank) * d == 1.0;
  }

  /** A matching hit's share is part of the total. */
  lemma {:induction false} TotalHolds(f: Filter, hits: seq<Hit>, n: nat, k: nat)
    requires k < n <= |hits| && Scores(f, hits[k], hits[k].metadata.hash)
    ensures Total(f, hits, n, hits[k].metadata.hash) >= 1.0 / (61 + k) as real
  {
    var hash := hits[k].metadata.hash;
    if k == n - 1 {
      TotalIsPositive(f, hits, k, hash);
      assert Share(n) == 1.0 / (61 + k) as real;
    } else {
      TotalHolds(f, hits, n - 1, k);
      SharePositive(n);
    }
  }

  /**
   The score of a chunk that each list has once at most, by its ranks alone: a hit at position
   `k` of a list is worth 1 / (61 + k), and two first hits are worth 1 together.
   */
  lemma ScoreOfRanks(f: Filter, dense: seq<Hit>, bm25: seq<Hit>, contexts: seq<Context>, i: nat, j: nat, k: nat)
    requires IsFusion(f, dense, bm25, contexts) && i < |contexts| && DistinctHashes(dense) && DistinctHashes(bm25)
    requires j < |dense| && k < |bm25| && dense[j].metadata.hash == bm25[k].metadata.hash == contexts[i].hash
    requires forall m | m in {dense[j].metadata, bm25[k].metadata} ::
               && m.visibility == f.visibility && m.status == f.status
               && (f.city == "" || m.city == f.city) && (f.domain == "" || m.domain == f.domain) && (f.user == "" || m.user == f.user)
    ensures contexts[i].score == (1.0 / (61 + j) as real + 1.0 / (61 + k) as real) / (2.0 / 61.0)
  {
    OnlyShare(f, dense, |dense|, j);
    OnlyShare(f, bm25, |bm25|, k);
    hide Total, Found, FirstContent;
  }

  /** The score of a chunk that only one list has, and that once at most. */
  lemma ScoreOfOneRank(f: Filter, dense: seq<Hit>, bm25: seq<Hit>, contexts: seq<Context>, i: nat, k: nat)
    requires IsFusion(f, dense, bm25, contexts) && i < |contexts| && DistinctHashes(dense)
    requires k < |dense| && dense[k].metadata.hash == contexts[i].hash
    requires var m := dense[k].metadata;
             && m.visibility == f.visibility && m.status == f.status
             && (f.city == "" || m.city == f.city) && (f.domain == "" || m.domain == f.domain) && (f.user == "" || m.user == f.user)
    requires forall j | 0 <= j < |bm25| :: bm25[j].metadata.hash != contexts[i].hash
    ensures contexts[i].score == (1.0 / (61 + k) as real) / (2.0 / 61.0)
  {
    OnlyShare(f, dense, |dense|, k);
    NoShareBefore(f, bm25, |bm25|, contexts[i].hash);
    hide Total, Found, FirstContent;
  }

  lemma {:induction false} OnlyShare(f: Filter, hits: seq<Hit>, n: nat, k: nat)
    requires k < n <= |hits| && DistinctHashes(hits) && Matches(f, hits[k].metadata)
    ensures Total(f, hits, n, hits[k].metadata.hash) == 1.0 / (61 + k) as real
  {
    var hash := hits[k].metadata.hash;
    if k == n - 1 {
      assert forall j | 0 <= j < k :: hits[j].metadata.hash != hash;
      NoShareBefore(f, hits, k, hash);
      assert Share(n) == 1.0 / (61 + k) as real;
    } else {
      OnlyShare(f, hits, n - 1, k);
      assert hits[n - 1].metadata.hash != hash;
    }
  }

  /******* The decision *******/

  datatype Status = NoResults | Unavailable | ClarificationRequired | Available(contexts: seq<Context>)

  /** The answers of the stores, if both could be asked. */
  datatype Answers = Failed | Answers(dense: seq<Hit>, bm25: seq<Hit>)

  method Retrieve(query: string, f: Filter, answers: Answers, minScore: real) returns (status: Status)
    ensures Blank(query) ==> status == NoResults
    ensures !Blank(query) && answers.Failed? ==> status == Unavailable
    ensures !Blank(query) && answers.Answers? ==>
              exists contexts :: IsFusion(f, answers.dense, answers.bm25, contexts) && status == Decide(contexts, minScore)
    ensures status.Available? ==>
              && status.contexts != [] && status.contexts[0].score >= minScore && answers.Answers?
              && forall i | 0 <= i < |status.contexts| ::
                   Served(f, answers.dense, answers.bm25, status.contexts[i])
  {
    hide IsFusion, Strip, Blank, Served;
    StripBlank(query);
    if Strip(query) == "" {
      return NoResults;
    }
    if answers.Failed? {
      return Unavailable;
    }
    var contexts := Fuse(f, answers.dense, answers.bm25);
    forall i | 0 <= i < |contexts|
      ensures Served(f, answers.dense, answers.bm25, contexts[i])
    {
      ServesOnlyFiltered(f, answers.dense, answers.bm25, contexts, i);
    }
    if contexts == [] {
      return NoResults;
    }
    if contexts[0].score < minScore {
      return ClarificationRequired;
    }
    return Available(contexts);
  }

  function Decide(contexts: seq<Context>, minScore: real): Status {
    if contexts == [] then NoResults
    else if contexts[0].score < minScore then ClarificationRequired
    else Available(contexts)
  }

  /******* Bounds *******/

  lemma ShareBounds(rank: nat)
    requires 1 <= rank <= STORE_TOP_K
    ensures 1.0 / 80.0 <= Share(rank) <= 1.0 / 61.0
  {
    var d := (RRF_K + rank) as real;
    assert 61.0 <= d <= 80.0;
    assert Share(rank) * d == 1.0;
  }

  ghost predicate DistinctHashes(hits: seq<Hit>) {
    forall i, j | 0 <= i < j < |hits| :: hits[i].metadata.hash != hits[j].metadata.hash
  }

  /** In a list without repeated hashes a chunk has at most one share; in any list a matching one has at least the last. */
  lemma {:induction false} TotalBounds(f: Filter, hits: seq<Hit>, n: nat, hash: string)
    requires n <= |hits| <= STORE_TOP_K
    ensures Total(f, hits, n, hash) >= 0.0
    ensures Occurs(f, hits, n, hash) ==> Total(f, hits, n, hash) >= 1.0 / 80.0
    ensures DistinctHashes(hits) ==> Total(f, hits, n, hash) <= 1.0 / 61.0
  {
    if n > 0 {
      TotalBounds(f, hits, n - 1, hash);
      ShareBounds(n);
      OccursNext(f, hits, n - 1);
      hide Share;
      if DistinctHashes(hits) && Scores(f, hits[n - 1], hash) {
        forall k | 0 <= k < n - 1
          ensures !Scores(f, hits[k], hash)
        {
          assert hits[k].metadata.hash != hits[n - 1].metadata.hash;
        }
        NoShareBefore(f, hits, n - 1, hash);
      }
    }
  }

  /** The normalised score of every context lies between 61/160 and 1. */
  lemma NormalisedBounds(f: Filter, dense: seq<Hit>, bm25: seq<Hit>, contexts: seq<Context>, i: nat)
    requires |dense| <= STORE_TOP_K && |bm25| <= STORE_TOP_K && IsFusion(f, dense, bm25, contexts) && i < |contexts|
    ensures contexts[i].score >= FLOOR
    ensures DistinctHashes(dense) && DistinctHashes(bm25) ==> contexts[i].score <= 1.0
  {
    hide Total, Occurs, DistinctHashes;
    var hash := contexts[i].hash;
    assert Found(f, dense, bm25, hash);
    TotalBounds(f, dense, |dense|, hash);
    TotalBounds(f, bm25, |bm25|, hash);
    var fused := Fused(f, dense, bm25, hash);
    assert contexts[i].score == fused / BEST_POSSIBLE;
    Normalise(1.0 / 80.0, fused);
    Normalise(fused, 2.0 / 61.0);
    assert (1.0 / 80.0) / BEST_POSSIBLE == FLOOR && (2.0 / 61.0) / BEST_POSSIBLE == 1.0;
  }

  /** So with the stores' limits of twenty hits the decision never asks for clarification up to the threshold 61/160. */
  lemma NeverClarifies(f: Filter, dense: seq<Hit>, bm25: seq<Hit>, contexts: seq<Context>, minScore: real)
    requires |dense| <= STORE_TOP_K && |bm25| <= STORE_TOP_K && IsFusion(f, dense, bm25, contexts)
    requires minScore <= FLOOR
    ensures Decide(contexts, minScore) != ClarificationRequired
  {
    if contexts != [] {
      NormalisedBounds(f, dense, bm25, contexts, 0);
    }
  }

  /** The bound is exact: with a higher threshold a single match at the last rank of one store asks for clarification. */
  lemma ClarifiesAboveFloor(f: Filter, dense: seq<Hit>, contexts: seq<Context>, minScore: real, hash: string)
    requires |dense| == STORE_TOP_K && IsFusion(f, dense, [], contexts) && minScore > FLOOR
    requires forall k | 0 <= k < STORE_TOP_K - 1 :: !Matches(f, dense[k].metadata)
    requires Scores(f, dense[STORE_TOP_K - 1], hash)
    ensures Decide(contexts, minScore) == ClarificationRequired
  {
    assert Occurs(f, dense, |dense|, hash);
    assert Found(f, dense, [], hash);
    forall k | 0 <= k < |dense| - 1
      ensures !Scores(f, dense[k], hash)
    {
    }
    NoShareBefore(f, dense, |dense| - 1, hash);
    assert Fused(f, dense, [], hash) == Share(STORE_TOP_K) == 1.0 / 80.0;
    assert (1.0 / 80.0) / BEST_POSSIBLE == FLOOR;
    forall h | Found(f, dense, [], h)
      ensures h == hash
    {
      var k :| 0 <= k < |dense| && Scores(f, dense[k], h);
      assert k == STORE_TOP_K - 1;
    }
    hide Found, Fused, Total;
    assert contexts != [];
    assert contexts[0].hash == hash;
  }
}
