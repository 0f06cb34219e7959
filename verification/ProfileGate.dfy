/**
 The read gate over the index: whatever stale or partial entries the two stores hold, and
 whatever was retrieved from them earlier, only the current value of a live profile memory of
 the user gets into the profile.
 */
module ProfileGate {
  import opened Text
  import opened Projection
  import opened ProjectionSafety
  import opened ProjectionEffects
  import opened ProjectionRuns
  import opened Wrappers
  import Boundaries
  import Chunker

  /** A retrieved chunk: its citation's document and source version, and its content. */
  datatype Item = Item(document: string, version: Option<string>, content: string)

  /** The answer of the catalog. */
  datatype Retrieval = Raised | NotAvailable | Available(contexts: seq<Item>)

  /** Reads a chunk as a JSON document with a key and a value, if it is one. */
  type Parser = string -> Option<(string, string)>

  /******* The gate *******/

  /** The live profile memory `d` of the user has version `v`, in decimal notation. */
  predicate Current(db: Tables, user: string, d: string, v: string) {
    && d in db.memories && db.memories[d].user == user && db.memories[d].kind == Profile
    && !db.memories[d].deleted && Decimal(db.memories[d].version) == v
  }

  /** The documents of the request that are still owned and current for this user. */
  function FilterActive(db: Tables, user: string, versions: map<string, string>): (allowed: set<string>)
    ensures forall d :: d in allowed <==> d in versions && Current(db, user, d, versions[d])
  {
    set d | d in versions && Current(db, user, d, versions[d])
  }

  ghost predicate SameVersions(items: seq<Item>, k: nat)
    requires k < |items|
  {
    forall j | 0 <= j < |items| && items[j].document == items[k].document && items[j].version.Some? ::
      items[j].version == items[k].version
  }

  /** The item carries the only version retrieved for its document, and the gate finds it current. */
  ghost predicate Admitted(db: Tables, user: string, items: seq<Item>, k: nat) {
    && k < |items| && items[k].version.Some? && SameVersions(items, k)
    && Current(db, user, items[k].document, items[k].version.value)
  }

  /** Item `k` puts the given key into the profile. */
  ghost predicate Gives(parse: Parser, db: Tables, user: string, items: seq<Item>, k: nat, key: string) {
    && Admitted(db, user, items, k)
    && parse(items[k].content).Some? && parse(items[k].content).value.0 == key
  }

  /** The profile holds exactly the keys the items before `n` give, each with the value of the last one that gives it. */
  ghost predicate LastWins(parse: Parser, db: Tables, user: string, items: seq<Item>, n: nat, profile: map<string, string>) {
    && (forall k: nat, key | k < n && Gives(parse, db, user, items, k, key) :: key in profile)
    && (forall key | key in profile :: exists k: nat ::
          && k < n && Gives(parse, db, user, items, k, key)
          && profile[key] == parse(items[k].content).value.1
          && forall j: nat | k < j < n :: !Gives(parse, db, user, items, j, key))
  }

  lemma Singleton(s: set<string>, a: string, b: string)
    requires |s| == 1 && a in s && b in s
    ensures a == b
  {
    assert |s - {a}| == 0;
    assert b !in s - {a};
  }

  function Only(s: set<string>): (v: string)
    requires |s| == 1
    ensures s == {v}
  {
    assert s != {};
    assert forall a, b | a in s && b in s :: a == b by {
      forall a, b | a in s && b in s
        ensures a == b
      {
        Singleton(s, a, b);
      }
    }
    var v :| v in s;
    v
  }

  ghost predicate Saw(items: seq<Item>, k: int, d: string, v: string) {
    0 <= k < |items| && items[k].document == d && items[k].version == Some(v)
  }

  ghost predicate SawSome(items: seq<Item>, n: int, d: string, v: string) {
    exists k :: k < n && Saw(items, k, d, v)
  }

  function Seen(seen: map<string, set<string>>, d: string): set<string> {
    if d in seen then seen[d] else {}
  }

  /** The versions seen for each document among the first `n` items. */
  ghost predicate VersionsSeen(items: seq<Item>, n: nat, seen: map<string, set<string>>)
    requires n <= |items|
  {
    && (forall d | d in seen :: seen[d] != {})
    && forall d, v :: v in Seen(seen, d) <==> SawSome(items, n, d, v)
  }

  method VersionsByDocument(items: seq<Item>) returns (seen: map<string, set<string>>)
    ensures VersionsSeen(items, |items|, seen)
  {
    seen := map[];
    for i := 0 to |items|
      invariant VersionsSeen(items, i, seen)
    {
      var item := items[i];
      ghost var before := seen;
      if item.version.Some? {
        seen := seen[item.document := Seen(seen, item.document) + {item.version.value}];
      }
      OneMoreVersion(items, i, before, seen);
    }
  }

  lemma OneMoreVersion(items: seq<Item>, i: nat, before: map<string, set<string>>, seen: map<string, set<string>>)
    requires i < |items| && VersionsSeen(items, i, before)
    requires var item := items[i];
             seen == if item.version.None? then before
                     else before[item.document := Seen(before, item.document) + {item.version.value}]
    ensures VersionsSeen(items, i + 1, seen)
  {
    forall d, v
      ensures v in Seen(seen, d) <==> SawSome(items, i + 1, d, v)
    {
      assert v in Seen(seen, d) <==> v in Seen(before, d) || Saw(items, i, d, v);
      if k :| k < i + 1 && Saw(items, k, d, v) {
        assert k < i ==> SawSome(items, i, d, v);
      }
    }
  }

  lemma SeenWhenSaw(items: seq<Item>, seen: map<string, set<string>>, k: nat)
    requires VersionsSeen(items, |items|, seen) && k < |items| && items[k].version.Some?
    ensures items[k].document in seen && items[k].version.value in seen[items[k].document]
  {
    assert Saw(items, k, items[k].document, items[k].version.value);
    assert items[k].version.value in Seen(seen, items[k].document);
  }

  /** The documents for which exactly one version was seen, with that version. */
  lemma SoleVersions(items: seq<Item>, seen: map<string, set<string>>, sole: map<string, string>, k: nat)
    requires VersionsSeen(items, |items|, seen) && k < |items|
    requires sole == map d | d in seen && |seen[d]| == 1 :: Only(seen[d])
    ensures items[k].document in sole && items[k].version == Some(sole[items[k].document])
       <==> items[k].version.Some? && SameVersions(items, k)
  {
    var d := items[k].document;
    if items[k].version.Some? {
      var v := items[k].version.value;
      SeenWhenSaw(items, seen, k);
      if d in sole {
        forall j | 0 <= j < |items| && items[j].document == d && items[j].version.Some?
          ensures items[j].version.value in seen[d]
        {
          SeenWhenSaw(items, seen, j);
        }
      }
      if SameVersions(items, k) {
        forall u | u in seen[d]
          ensures u == v
        {
          assert u in Seen(seen, d);
        }
        assert seen[d] == {v};
      }
    }
  }

  /**
   Loads the profile: `db` is the database the gate reads, none if the gate raises. Any
   failure on the way gives the empty profile.
   */
  method LoadProfileMemory(parse: Parser, user: string, retrieved: Retrieval, db: Option<Tables>)
    returns (profile: map<string, string>)
    ensures retrieved.Available? && db.Some? ==>
              LastWins(parse, db.value, user, retrieved.contexts, |retrieved.contexts|, profile)
    ensures !retrieved.Available? || db.None? ==> profile == map[]
  {
    hide VersionsSeen, Current, Decimal;
    profile := map[];
    if !retrieved.Available? {
      return;
    }
    var items := retrieved.contexts;
    var seen := VersionsByDocument(items);
    var sole := map d | d in seen && |seen[d]| == 1 :: Only(seen[d]);
    if sole == map[] || db.None? {
      forall k: nat | k < |items|
        ensures db.Some? ==> !Admitted(db.value, user, items, k)
      {
        SoleVersions(items, seen, sole, k);
      }
      return;
    }
    var allowed := FilterActive(db.value, user, sole);
    for i := 0 to |items|
      invariant LastWins(parse, db.value, user, items, i, profile)
    {
      var item := items[i];
      SoleVersions(items, seen, sole, i);
      assert Admitted(db.value, user, items, i)
        <==> item.document in allowed && item.document in sole && item.version == Some(sole[item.document]);
      ghost var before := profile;
      if item.document in allowed && item.version == Some(sole[item.document]) {
        var document := parse(item.content);
        if document.Some? {
          profile := profile[document.value.0 := document.value.1];
        }
      }
      OneMoreItem(parse, db.value, user, items, i, before, profile);
    }
  }

  lemma OneMoreItem(parse: Parser, db: Tables, user: string, items: seq<Item>, i: nat,
                    before: map<string, string>, profile: map<string, string>)
    requires i < |items| && LastWins(parse, db, user, items, i, before)
    requires profile == if Admitted(db, user, items, i) && parse(items[i].content).Some?
                        then before[parse(items[i].content).value.0 := parse(items[i].content).value.1]
                        else before
    ensures LastWins(parse, db, user, items, i + 1, profile)
  {
    hide Admitted;
    forall key | key in profile
      ensures exists k: nat ::
                && k < i + 1 && Gives(parse, db, user, items, k, key)
                && profile[key] == parse(items[k].content).value.1
                && forall j: nat | k < j < i + 1 :: !Gives(parse, db, user, items, j, key)
    {
      if Gives(parse, db, user, items, i, key) {
        assert profile[key] == parse(items[i].content).value.1;
      } else {
        var k: nat :| k < i && Gives(parse, db, user, items, k, key) && before[key] == parse(items[k].content).value.1
                      && forall j: nat | k < j < i :: !Gives(parse, db, user, items, j, key);
        assert forall j: nat | k < j < i + 1 :: !Gives(parse, db, user, items, j, key);
      }
    }
  }

  /** The catalog's citations carry no version, and then the profile is always empty. */
  lemma NoVersionsNoProfile(parse: Parser, db: Tables, user: string, items: seq<Item>, profile: map<string, string>)
    requires forall k | 0 <= k < |items| :: items[k].version.None?
    requires LastWins(parse, db, user, items, |items|, profile)
    ensures profile == map[]
  {
    assert forall k: nat, key :: !Gives(parse, db, user, items, k, key);
    assert forall key :: key !in profile;
  }

  /******* What the retrieved items can be *******/

  /** The item was read from an entry of one of the stores, at some state of the run that led to `now`. */
  ghost predicate FromStore(cfg: Config, now: State, item: Item) {
    exists s, e, m :: Reaches(cfg, EMPTY, s) && Reaches(cfg, s, now) && Stored(s, e, m) && ReadFrom(item, e, m)
  }

  ghost predicate Stored(s: State, e: Entry, m: Meta) {
    (e in s.dense && s.dense[e] == m) || (e in s.text && s.text[e] == m)
  }

  ghost predicate ReadFrom(item: Item, e: Entry, m: Meta) {
    item.document == e.document && item.content == e.content && (item.version.None? || item.version == Some(Decimal(m.version)))
  }

  lemma InvVersions(cfg: Config, s: State)
    requires Inv(cfg, s)
    ensures VersionsOk(s.db.memories, s.db.past) && Genuine(cfg, s.db, s.dense) && Genuine(cfg, s.db, s.text)
  {
    hide VersionsOk, Genuine, WorkersOk;
  }

  /**
   An item that the gate admits is a chunk of the current document of a live profile memory
   of the user, however long ago it was read and whatever else the stores held then.
   */
  lemma AdmittedIsCurrent(cfg: Config, now: State, user: string, item: Item)
    requires FromStore(cfg, now, item)
    requires item.version.Some? && Current(now.db, user, item.document, item.version.value)
    ensures exists i: nat :: ChunkOf(cfg, now.db.memories[item.document], i, item.content)
  {
    hide Reaches, Inv, Decimal, Genuine;
    var s, e, m :| Reaches(cfg, EMPTY, s) && Reaches(cfg, s, now) && Stored(s, e, m) && ReadFrom(item, e, m);
    ReachableInv(cfg, s);
    ReachesTrans(cfg, EMPTY, s, now);
    ReachableInv(cfg, now);
    InvVersions(cfg, s);
    InvVersions(cfg, now);
    var row := now.db.memories[item.document];
    DecimalInjective(row.version, m.version);
    PastKept(cfg, s, now);
    StoredIsGenuine(cfg, s, e, m);
    var was := now.db.past[(e.document, m.version)];
    assert was == row;
    var i: nat :| ChunkOf(cfg, was, i, e.content);
  }

  ghost predicate ChunkOf(cfg: Config, row: Row, i: nat, content: string) {
    i < |cfg.render(row.key, row.value)| && cfg.render(row.key, row.value)[i] == content
  }

  /** A store entry always carries a chunk of what the memory was at the entry's version. */
  lemma StoredIsGenuine(cfg: Config, s: State, e: Entry, m: Meta)
    requires Genuine(cfg, s.db, s.dense) && Genuine(cfg, s.db, s.text) && Stored(s, e, m)
    ensures (e.document, m.version) in s.db.past && s.db.past[(e.document, m.version)].user == m.user
    ensures exists i: nat :: ChunkOf(cfg, s.db.past[(e.document, m.version)], i, e.content)
  {
    var row := s.db.past[(e.document, m.version)];
    assert e in Entries(cfg, e.document, row);
    var i :| 0 <= i < |cfg.render(row.key, row.value)| && e == Chunk(cfg, e.document, row, i);
    assert ChunkOf(cfg, row, i, e.content);
  }

  /******* Deleted memories *******/

  /**
   After a deletion, at any later state of any run and whatever was retrieved from wherever: no
   item of the deleted memory is admitted for any user, and every key of a loaded profile is
   given by an item of another memory.
   */
  lemma DeletedIsForgotten(cfg: Config, parse: Parser, s: State, id: string, user: string, task: nat, later: seq<Event>,
                           reader: string, items: seq<Item>, profile: map<string, string>)
    requires Enabled(s, Delete(id, user, task)) && IsRun(cfg, Apply(cfg, s, Delete(id, user, task)), later)
    requires var now := After(cfg, Apply(cfg, s, Delete(id, user, task)), later);
             LastWins(parse, now.db, reader, items, |items|, profile)
    ensures var now := After(cfg, Apply(cfg, s, Delete(id, user, task)), later);
            && (forall k: nat | k < |items| && items[k].document == id :: !Admitted(now.db, reader, items, k))
            && forall key | key in profile :: exists k: nat ::
                 && k < |items| && items[k].document != id && parse(items[k].content) == Some((key, profile[key]))
                 && Admitted(now.db, reader, items, k)
  {
    MutationWrites(cfg, s, Delete(id, user, task));
    hide Apply, Enabled, IsRun, After, Decimal, SameVersions, OthersStay, Enqueued;
    var m := Apply(cfg, s, Delete(id, user, task));
    DeletedIsFinal(cfg, m, later, id);
    var now := After(cfg, m, later);
    forall key | key in profile
      ensures exists k: nat ::
                 && k < |items| && items[k].document != id && parse(items[k].content) == Some((key, profile[key]))
                 && Admitted(now.db, reader, items, k)
    {
      var k: nat :| k < |items| && Gives(parse, now.db, reader, items, k, key) && profile[key] == parse(items[k].content).value.1;
      assert Admitted(now.db, reader, items, k);
      assert items[k].document != id;
      assert parse(items[k].content) == Some((key, profile[key]));
    }
  }

  /******* What the loaded profile can hold *******/

  /** Each item that the gate finds current carries a chunk of its document's current row. */
  ghost predicate CurrentChunks(cfg: Config, db: Tables, user: string, items: seq<Item>) {
    forall k | 0 <= k < |items| && items[k].version.Some? && Current(db, user, items[k].document, items[k].version.value) ::
      exists i: nat :: ChunkOf(cfg, db.memories[items[k].document], i, items[k].content)
  }

  /** So it is for items that were read from the stores at any state of a run. */
  lemma FromStoresAreCurrent(cfg: Config, now: State, user: string, items: seq<Item>)
    requires forall k | 0 <= k < |items| :: FromStore(cfg, now, items[k])
    ensures CurrentChunks(cfg, now.db, user, items)
  {
    hide FromStore, ChunkOf, Decimal;
    forall k | 0 <= k < |items| && items[k].version.Some? && Current(now.db, user, items[k].document, items[k].version.value)
      ensures exists i: nat :: ChunkOf(cfg, now.db.memories[items[k].document], i, items[k].content)
    {
      AdmittedIsCurrent(cfg, now, user, items[k]);
    }
  }

  predicate LiveProfile(db: Tables, user: string, id: string) {
    id in db.memories && db.memories[id].user == user && db.memories[id].kind == Profile && !db.memories[id].deleted
  }

  /** A live profile memory of the user has this key and this value. */
  ghost predicate CurrentPair(db: Tables, user: string, pair: (string, string)) {
    exists id :: LiveProfile(db, user, id) && (db.memories[id].key, db.memories[id].value) == pair
  }

  /** No chunk of the memory's document reads as a key and value that no live profile memory of the user has. */
  ghost predicate ReadsCurrent(cfg: Config, parse: Parser, db: Tables, user: string, row: Row) {
    forall i, content | ChunkOf(cfg, row, i, content) && parse(content).Some? :: CurrentPair(db, user, parse(content).value)
  }

  ghost predicate AllReadCurrent(cfg: Config, parse: Parser, db: Tables, user: string) {
    forall id | LiveProfile(db, user, id) :: ReadsCurrent(cfg, parse, db, user, db.memories[id])
  }

  /** Every profile that can be loaded from chunks of current rows holds current keys and values only. */
  ghost predicate OnlyCurrentProfiles(cfg: Config, parse: Parser, db: Tables, user: string) {
    forall items, profile, key |
      CurrentChunks(cfg, db, user, items) && LastWins(parse, db, user, items, |items|, profile) && key in profile ::
      CurrentPair(db, user, (key, profile[key]))
  }

  /**
   Main result, with no assumption on leases: if no chunk of the user's live profile memories
   reads as anything else, then every key and value of a loaded profile is the current one of a
   live profile memory owned by the user, never a stale, deleted or foreign one.
   */
  lemma ProfileIsCurrent(cfg: Config, parse: Parser, now: State, user: string, items: seq<Item>,
                         profile: map<string, string>, key: string)
    requires forall k | 0 <= k < |items| :: FromStore(cfg, now, items[k])
    requires AllReadCurrent(cfg, parse, now.db, user)
    requires LastWins(parse, now.db, user, items, |items|, profile) && key in profile
    ensures CurrentPair(now.db, user, (key, profile[key]))
  {
    hide *;
    FromStoresAreCurrent(cfg, now, user, items);
    LoadedIsCurrent(cfg, parse, now.db, user, items, profile, key);
  }

  lemma LoadedIsCurrent(cfg: Config, parse: Parser, db: Tables, user: string, items: seq<Item>,
                        profile: map<string, string>, key: string)
    requires CurrentChunks(cfg, db, user, items) && AllReadCurrent(cfg, parse, db, user)
    requires LastWins(parse, db, user, items, |items|, profile) && key in profile
    ensures CurrentPair(db, user, (key, profile[key]))
  {
    hide Decimal, CurrentPair;
    var k: nat :| k < |items| && Gives(parse, db, user, items, k, key)
                  && profile[key] == parse(items[k].content).value.1;
    assert LiveProfile(db, user, items[k].document);
    assert parse(items[k].content).value == (key, profile[key]);
  }

  /** The profile loaded from a single item that the gate finds current. */
  lemma OneItemLoads(parse: Parser, db: Tables, user: string, item: Item)
    requires item.version.Some? && Current(db, user, item.document, item.version.value) && parse(item.content).Some?
    ensures var pair := parse(item.content).value; LastWins(parse, db, user, [item], 1, map[pair.0 := pair.1])
  {
    hide Current;
    var items, key := [item], parse(item.content).value.0;
    assert Admitted(db, user, items, 0);
    assert Gives(parse, db, user, items, 0, key);
  }

  /** That condition is exact: a chunk that reads as anything else is loaded as soon as it is retrieved. */
  lemma OnlyCurrentExactly(cfg: Config, parse: Parser, db: Tables, user: string)
    ensures OnlyCurrentProfiles(cfg, parse, db, user) <==> AllReadCurrent(cfg, parse, db, user)
  {
    hide LastWins, CurrentPair, Decimal;
    if AllReadCurrent(cfg, parse, db, user) {
      forall items, profile, key |
        CurrentChunks(cfg, db, user, items) && LastWins(parse, db, user, items, |items|, profile) && key in profile
        ensures CurrentPair(db, user, (key, profile[key]))
      {
        LoadedIsCurrent(cfg, parse, db, user, items, profile, key);
      }
    }
    if OnlyCurrentProfiles(cfg, parse, db, user) {
      forall id, i, content |
        LiveProfile(db, user, id) && ChunkOf(cfg, db.memories[id], i, content) && parse(content).Some?
        ensures CurrentPair(db, user, parse(content).value)
      {
        RetrievedIsLoaded(cfg, parse, db, user, id, i, content);
      }
    }
  }

  lemma RetrievedIsLoaded(cfg: Config, parse: Parser, db: Tables, user: string, id: string, i: nat, content: string)
    requires OnlyCurrentProfiles(cfg, parse, db, user)
    requires LiveProfile(db, user, id) && ChunkOf(cfg, db.memories[id], i, content) && parse(content).Some?
    ensures CurrentPair(db, user, parse(content).value)
  {
    hide LastWins, CurrentPair, Decimal, ChunkOf;
    var item, pair := Item(id, Some(Decimal(db.memories[id].version)), content), parse(content).value;
    OneItemLoads(parse, db, user, item);
    var items, profile := [item], map[pair.0 := pair.1];
    assert CurrentChunks(cfg, db, user, items);
    assert LastWins(parse, db, user, items, |items|, profile) && pair.0 in profile;
    assert (pair.0, profile[pair.0]) == pair;
  }

  /******* Documents of one chunk *******/

  /** The text that is chunked for a key and a value. */
  type Renderer = (string, string) -> string

  /** The document of each live profile memory of the user fits one chunk. */
  ghost predicate ShortDocuments(text: Renderer, db: Tables, user: string, size: nat) {
    forall id | LiveProfile(db, user, id) :: |text(db.memories[id].key, db.memories[id].value)| <= size
  }

  /** Compact JSON objects have no white space at their ends, and parsing undoes rendering or fails. */
  ghost predicate Renders(cfg: Config, parse: Parser, text: Renderer, size: nat, overlap: nat, levels: seq<seq<string>>)
    requires size > 0
  {
    forall key, value :: var t := text(key, value);
      && t != "" && !IsSpace(t[0]) && !IsSpace(t[|t| - 1])
      && cfg.render(key, value) == Chunker.Chunks(t, size, overlap, levels)
      && (parse(t).Some? ==> parse(t).value == (key, value))
  }

  /** No chunk of the memory's document reads as another key or value than the memory's own. */
  ghost predicate ReadsTrue(cfg: Config, parse: Parser, row: Row) {
    forall i, content | ChunkOf(cfg, row, i, content) && parse(content).Some? :: parse(content).value == (row.key, row.value)
  }

  /** A document that fits one chunk reads as what it was rendered from, if it reads as anything. */
  lemma ShortDocumentReadsTrue(cfg: Config, parse: Parser, text: Renderer, row: Row,
                               size: nat, overlap: nat, levels: seq<seq<string>>)
    requires overlap < size && Renders(cfg, parse, text, size, overlap, levels) && |text(row.key, row.value)| <= size
    ensures ReadsTrue(cfg, parse, row)
  {
    Chunker.ShortTextIsOneChunk(text(row.key, row.value), size, overlap, levels);
    hide Chunker.Chunks;
  }

  /** What a caller can check beforehand: documents that fit one chunk give only current profiles. */
  lemma ShortDocumentsAreCurrent(cfg: Config, parse: Parser, text: Renderer, db: Tables, user: string,
                                 size: nat, overlap: nat, levels: seq<seq<string>>)
    requires overlap < size && Renders(cfg, parse, text, size, overlap, levels) && ShortDocuments(text, db, user, size)
    ensures OnlyCurrentProfiles(cfg, parse, db, user)
  {
    hide Chunker.Chunks, OnlyCurrentProfiles;
    forall id | LiveProfile(db, user, id)
      ensures ReadsCurrent(cfg, parse, db, user, db.memories[id])
    {
      ShortDocumentReadsTrue(cfg, parse, text, db.memories[id], size, overlap, levels);
    }
    OnlyCurrentExactly(cfg, parse, db, user);
  }

  /******* A document within a document *******/

  /** In a reachable state a profile is loaded from its stores with a key that no memory has. */
  ghost predicate Misleads(cfg: Config, parse: Parser, s: State, items: seq<Item>, profile: map<string, string>, key: string) {
    && Reaches(cfg, EMPTY, s) && (forall k | 0 <= k < |items| :: FromStore(cfg, s, items[k]))
    && LastWins(parse, s.db, "user", items, |items|, profile) && key in profile
    && forall id | id in s.db.memories :: s.db.memories[id].key != key
  }

  /**
   Longer documents can do otherwise. With the source's chunk size, overlap and separators, and
   a single memory whose value holds an object of the shape of a document: its projection is
   indexed and retrieved, and the loaded profile has a key that no memory has.
   */
  lemma NestedDocumentMisleads(cfg: Config, parse: Parser, key: string, z: string)
    requires Boundaries.Lower(key) && |key| == 77 && Boundaries.Lower(z) && |z| == 796 && cfg.lease > 0
    requires var value := Boundaries.LongValue(z); var nesting := Boundaries.NestingValue(key, value);
             && cfg.render("real", nesting)
                == Chunker.Chunks(Boundaries.Document("real", nesting), 800, 100, Chunker.LEVELS)
             && parse(Boundaries.Document(key, value)) == Some((key, value))
    ensures exists s, items, profile :: Misleads(cfg, parse, s, items, profile, key)
  {
    hide Boundaries.Document, Boundaries.LongValue, Boundaries.NestingValue, Chunker.Chunks, Reaches, LastWins, Decimal;
    var value := Boundaries.LongValue(z);
    var row := Row("user", Profile, "real", Boundaries.NestingValue(key, value), false, 1);
    Boundaries.NestedDocumentIsAChunk(key, z);
    var s := FirstIndexed(cfg, row);
    IndexedIsRetrieved(cfg, s, row, 1);
    var item := Item("memory", Some(Decimal(1)), Boundaries.Document(key, value));
    var items, profile := [item], map[key := value];
    assert FromStore(cfg, s, items[0]);
    OneItemLoads(parse, s.db, "user", item);
    assert LastWins(parse, s.db, "user", items, |items|, profile);
    assert Misleads(cfg, parse, s, items, profile, key) by { assert |"real"| != |key|; }
  }

  lemma IndexedIsRetrieved(cfg: Config, s: State, row: Row, i: nat)
    requires Reaches(cfg, EMPTY, s) && !row.deleted && i < |cfg.render(row.key, row.value)|
    requires DocumentIn(s.dense, "memory") == Document(cfg, "memory", row)
    ensures FromStore(cfg, s, Item("memory", Some(Decimal(row.version)), cfg.render(row.key, row.value)[i]))
  {
    hide Decimal, Reaches;
    var e, m := Chunk(cfg, "memory", row, i), Meta(row.user, row.version);
    assert e in Entries(cfg, "memory", row);
    assert e in Document(cfg, "memory", row) && Document(cfg, "memory", row)[e] == m;
    assert e in s.dense && s.dense[e] == m;
    ReachesSelf(cfg, s);
    assert Stored(s, e, m) && ReadFrom(Item("memory", Some(Decimal(row.version)), e.content), e, m);
  }

  /**
   Conversely, a retrieved chunk of a current document gets its key into the profile, unless
   another version of the document was retrieved too.
   */
  lemma CurrentIsLoaded(parse: Parser, db: Tables, user: string, items: seq<Item>, k: nat, profile: map<string, string>)
    requires LastWins(parse, db, user, items, |items|, profile)
    requires k < |items| && items[k].version.Some? && parse(items[k].content).Some?
    requires Current(db, user, items[k].document, items[k].version.value)
    requires SameVersions(items, k)
    ensures parse(items[k].content).value.0 in profile
  {
    assert Gives(parse, db, user, items, k, parse(items[k].content).value.0);
  }
}
