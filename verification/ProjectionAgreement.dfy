/**
 When the two stores agree with the memories table, and exactly what breaks the agreement: a
 store call made by a worker that has lost its lease or its row lock.
 */
module ProjectionAgreement {
  import opened Projection
  import opened ProjectionSafety

  /** The current version of the memory still has a task to be completed. */
  ghost predicate Pending(db: Tables, id: string)
    requires id in db.memories
  {
    exists t :: IsTaskFor(db.tasks, t, id, db.memories[id].version) && !db.tasks[t].status.Completed?
  }

  /** Both stores hold exactly the current projection of the memory. */
  ghost predicate Shown(cfg: Config, s: State, id: string)
    requires id in s.db.memories
  {
    && DocumentIn(s.dense, id) == Document(cfg, id, s.db.memories[id])
    && DocumentIn(s.text, id) == Document(cfg, id, s.db.memories[id])
  }

  ghost predicate Agree(cfg: Config, s: State) {
    forall id :: id in s.db.memories ==> Pending(s.db, id) || Shown(cfg, s, id)
  }

  /** A store call is made only by the attempt that still owns its task. */
  ghost predicate Owned(s: State, e: Event) {
    e.StoreOk? || e.StoreFail? ==> e.token in s.attempts && Owns(s, e.token)
  }

  /** A store call is made only before the attempt's lease expires. */
  predicate InLease(s: State, e: Event) {
    e.StoreOk? || e.StoreFail? ==> e.token in s.attempts && s.now < s.attempts[e.token].expires
  }

  /** A store call is made only under the row lock. */
  predicate UnderLock(s: State, e: Event) {
    e.StoreOk? || e.StoreFail? ==> e.token in s.attempts && s.attempts[e.token].phase.Locked?
  }

  lemma InLeaseIsOwned(s: State, e: Event)
    requires LeasesOk(s) && InLease(s, e)
    ensures Owned(s, e)
  {
  }

  /******* What the stores hold under the row lock *******/

  /** What the two stores hold for the locked document before each store call. */
  ghost predicate StepFacts(cfg: Config, s: State, id: string, source: Row, step: Step) {
    var dense, text := DocumentIn(s.dense, id), DocumentIn(s.text, id);
    match step
    case DeleteDense => true
    case DeleteText => dense == map[]
    case UpsertDense => !source.deleted && dense == map[] && text == map[]
    case IndexText => !source.deleted && dense == Document(cfg, id, source) && text == map[]
    case Finish => dense == Document(cfg, id, source) && text == Document(cfg, id, source)
  }

  ghost predicate StepsOk(cfg: Config, s: State) {
    forall k :: k in s.attempts && s.attempts[k].phase.Locked? ==>
      StepFacts(cfg, s, s.attempts[k].memory, s.attempts[k].phase.source, s.attempts[k].phase.step)
  }

  lemma EmptyPlus(m: Index)
    ensures map[] + m == m
  {
  }

  lemma DeletedDocument(cfg: Config, id: string, row: Row)
    requires row.deleted
    ensures Document(cfg, id, row) == map[]
  {
  }

  /** Delete, delete, write, write: after each completed call the facts of the next one hold. */
  lemma StepFactsAdvance(cfg: Config, s: State, id: string, source: Row, step: Step)
    requires StepFacts(cfg, s, id, source, step) && step != Finish
    ensures StepFacts(cfg, StoreEffect(cfg, s, id, source, step, Whole(cfg, s, id, source)), id, source, NextStep(source, step))
  {
    EffectHere(cfg, s, id, source, step);
    EmptyPlus(Document(cfg, id, source));
    if source.deleted {
      DeletedDocument(cfg, id, source);
    }
    hide StoreEffect, DocumentIn, Document, Whole;
  }

  lemma OtherStepFacts(cfg: Config, s: State, id: string, source: Row, step: Step, part: set<Entry>,
                       other: string, row: Row, at: Step)
    requires other != id && StepFacts(cfg, s, other, row, at)
    ensures StepFacts(cfg, StoreEffect(cfg, s, id, source, step, part), other, row, at)
  {
    EffectElsewhere(cfg, s, id, source, step, part, other);
    hide StoreEffect, DocumentIn, Document;
  }

  lemma SameStores(cfg: Config, s: State, n: State, id: string, source: Row, step: Step)
    requires s.dense == n.dense && s.text == n.text && StepFacts(cfg, s, id, source, step)
    ensures StepFacts(cfg, n, id, source, step)
  {
  }

  /** The part of its work that a call has done: all of it when it succeeds. */
  function DonePart(cfg: Config, s: State, e: Event): set<Entry>
    requires Enabled(s, e) && (e.StoreOk? || e.StoreFail?)
  {
    var a := s.attempts[e.token];
    if e.StoreOk? then Whole(cfg, s, a.memory, a.phase.source) else e.part
  }

  /** What a store call does to the stores and to the phase of its attempt. */
  lemma StoreEventIs(cfg: Config, s: State, e: Event)
    requires Enabled(s, e) && (e.StoreOk? || e.StoreFail?)
    ensures var n, a := Apply(cfg, s, e), s.attempts[e.token];
            var m := StoreEffect(cfg, s, a.memory, a.phase.source, a.phase.step, DonePart(cfg, s, e));
            && n.db == s.db && n.dense == m.dense && n.text == m.text
            && n.attempts == s.attempts[e.token := a.(phase := if e.StoreOk?
                                                               then a.phase.(step := NextStep(a.phase.source, a.phase.step))
                                                               else Failed)]
  {
    hide StoreEffect, Whole, NextStep;
  }

  lemma StoreEventKeepsSteps(cfg: Config, s: State, e: Event)
    requires LocksOk(s) && StepsOk(cfg, s) && Enabled(s, e) && (e.StoreOk? || e.StoreFail?) && UnderLock(s, e)
    ensures StepsOk(cfg, Apply(cfg, s, e))
  {
    StoreEventIs(cfg, s, e);
    var n, a := Apply(cfg, s, e), s.attempts[e.token];
    var source, step := a.phase.source, a.phase.step;
    assert InStoreCall(s, e.token);
    var part := if e.StoreOk? then Whole(cfg, s, a.memory, source) else e.part;
    var m := StoreEffect(cfg, s, a.memory, source, step, part);
    hide StepFacts, StoreEffect, Whole, Apply, Enabled, NextStep;
    forall k | k in n.attempts && n.attempts[k].phase.Locked?
      ensures StepFacts(cfg, n, n.attempts[k].memory, n.attempts[k].phase.source, n.attempts[k].phase.step)
    {
      if k == e.token {
        StepFactsAdvance(cfg, s, a.memory, source, step);
        SameStores(cfg, m, n, a.memory, source, NextStep(source, step));
      } else {
        var b := s.attempts[k];
        OtherStepFacts(cfg, s, a.memory, source, step, part, b.memory, b.phase.source, b.phase.step);
        SameStores(cfg, m, n, b.memory, b.phase.source, b.phase.step);
      }
    }
  }

  /** An event that is no store call locks rows only at their first step. */
  lemma OtherEventLocks(cfg: Config, s: State, e: Event, k: nat)
    requires Enabled(s, e) && !e.StoreOk? && !e.StoreFail?
    requires k in Apply(cfg, s, e).attempts && Apply(cfg, s, e).attempts[k].phase.Locked?
    ensures Apply(cfg, s, e).attempts[k].phase.step == DeleteDense || (k in s.attempts && Apply(cfg, s, e).attempts[k] == s.attempts[k])
  {
    hide RowLocked, HasTravelProfile;
  }

  lemma SameStoresAfter(cfg: Config, s: State, e: Event)
    requires Enabled(s, e) && !e.StoreOk? && !e.StoreFail?
    ensures Apply(cfg, s, e).dense == s.dense && Apply(cfg, s, e).text == s.text
  {
    hide RowLocked, HasTravelProfile, AfterLock;
  }

  lemma KeepsSteps(cfg: Config, s: State, e: Event)
    requires LocksOk(s) && StepsOk(cfg, s) && Enabled(s, e) && UnderLock(s, e)
    ensures StepsOk(cfg, Apply(cfg, s, e))
  {
    if e.StoreOk? || e.StoreFail? {
      StoreEventKeepsSteps(cfg, s, e);
    } else {
      var n := Apply(cfg, s, e);
      SameStoresAfter(cfg, s, e);
      forall k | k in n.attempts && n.attempts[k].phase.Locked?
        ensures StepFacts(cfg, n, n.attempts[k].memory, n.attempts[k].phase.source, n.attempts[k].phase.step)
      {
        OtherEventLocks(cfg, s, e, k);
        hide Apply, Enabled;
        var a := n.attempts[k];
        if a.phase.step != DeleteDense {
          SameStores(cfg, s, n, a.memory, a.phase.source, a.phase.step);
        }
      }
    }
  }

  /******* Every event keeps the agreement while leases and locks are respected *******/

  lemma MutationKeepsAgree(cfg: Config, s: State, e: Event)
    requires TasksOk(s.db.memories, s.db.tasks) && AttemptsOk(s) && Agree(cfg, s) && Enabled(s, e) && IsMutation(e)
    ensures Agree(cfg, Apply(cfg, s, e))
  {
    MutationExtends(cfg, s, e);
    var n := Apply(cfg, s, e);
    hide Apply, Enabled, DocumentIn, Document, TasksOk, AttemptsOk;
    forall id | id in n.db.memories
      ensures Pending(n.db, id) || Shown(cfg, n, id)
    {
      if id == e.id {
        assert IsTaskFor(n.db.tasks, e.task, id, n.db.memories[id].version);
      } else if Pending(s.db, id) {
        var t :| IsTaskFor(s.db.tasks, t, id, s.db.memories[id].version) && !s.db.tasks[t].status.Completed?;
        assert IsTaskFor(n.db.tasks, t, id, n.db.memories[id].version);
      } else {
        assert Shown(cfg, s, id);
      }
    }
  }

  /** The attempt that holds the row at the task's version and owns the task leaves the memory pending. */
  lemma OwnedIsPending(s: State, e: Event)
    requires AttemptsOk(s) && SourcesOk(s) && Enabled(s, e) && (e.StoreOk? || e.StoreFail?) && Owned(s, e) && UnderLock(s, e)
    ensures s.attempts[e.token].memory in s.db.memories && Pending(s.db, s.attempts[e.token].memory)
  {
    var a := s.attempts[e.token];
    assert SourceOk(s.db, a);
    assert IsTaskFor(s.db.tasks, a.task, a.memory, s.db.memories[a.memory].version);
  }

  lemma StoreEventElsewhere(cfg: Config, s: State, e: Event, id: string)
    requires Enabled(s, e) && (e.StoreOk? || e.StoreFail?) && id in s.db.memories && id != s.attempts[e.token].memory
    ensures var n := Apply(cfg, s, e); n.db == s.db && (Shown(cfg, s, id) <==> Shown(cfg, n, id))
  {
    var a := s.attempts[e.token];
    var part := if e.StoreOk? then Whole(cfg, s, a.memory, a.phase.source) else e.part;
    EffectElsewhere(cfg, s, a.memory, a.phase.source, a.phase.step, part, id);
    hide Whole, DocumentIn, Document, StoreEffect;
  }

  lemma StoreEventKeepsAgree(cfg: Config, s: State, e: Event)
    requires AttemptsOk(s) && SourcesOk(s) && Agree(cfg, s) && Enabled(s, e)
    requires (e.StoreOk? || e.StoreFail?) && Owned(s, e) && UnderLock(s, e)
    ensures Agree(cfg, Apply(cfg, s, e))
  {
    OwnedIsPending(s, e);
    StoreEventKeepsTables(cfg, s, e);
    var n := Apply(cfg, s, e);
    forall id | id in n.db.memories
      ensures Pending(n.db, id) || Shown(cfg, n, id)
    {
      if id != s.attempts[e.token].memory {
        StoreEventElsewhere(cfg, s, e, id);
      }
    }
  }

  lemma StoreEventKeepsTables(cfg: Config, s: State, e: Event)
    requires Enabled(s, e) && (e.StoreOk? || e.StoreFail?)
    ensures Apply(cfg, s, e).db == s.db
  {
    hide StoreEffect, Whole;
  }

  /** The only task an event may complete is the one it owns, with all its store calls done or a newer version present. */
  lemma CompletedOnlyWhenDone(cfg: Config, s: State, e: Event, t: nat)
    requires AttemptsOk(s) && Enabled(s, e) && !IsMutation(e)
    requires t in s.db.tasks && !s.db.tasks[t].status.Completed?
    requires t in Apply(cfg, s, e).db.tasks && Apply(cfg, s, e).db.tasks[t].status.Completed?
    ensures e.Complete? && s.attempts[e.token].task == t
  {
    hide StoreEffect, Whole, AfterLock, NextStep;
  }

  lemma OtherEventKeepsAgree(cfg: Config, s: State, e: Event)
    requires AttemptsOk(s) && SourcesOk(s) && StepsOk(cfg, s) && Agree(cfg, s) && Enabled(s, e)
    requires !IsMutation(e) && !e.StoreOk? && !e.StoreFail?
    ensures Agree(cfg, Apply(cfg, s, e))
  {
    var n := Apply(cfg, s, e);
    assert n.db.memories == s.db.memories && n.dense == s.dense && n.text == s.text by { hide AfterLock; }
    SameTasksAfter(cfg, s, e);
    forall id | id in n.db.memories
      ensures Pending(n.db, id) || Shown(cfg, n, id)
    {
      if Pending(s.db, id) {
        var t :| IsTaskFor(s.db.tasks, t, id, s.db.memories[id].version) && !s.db.tasks[t].status.Completed?;
        assert IsTaskFor(n.db.tasks, t, id, n.db.memories[id].version);
        if n.db.tasks[t].status.Completed? {
          CompletedOnlyWhenDone(cfg, s, e, t);
          CompletionShows(cfg, s, e);
        }
      }
    }
  }

  lemma SameTasksAfter(cfg: Config, s: State, e: Event)
    requires Enabled(s, e) && !IsMutation(e)
    ensures Relabelled(s.db.tasks, Apply(cfg, s, e).db.tasks)
  {
    if e.Claim? {
      RecoveryRestates(s);
      CountedRelabels(RecoverLeases(s).db, e.token, e.task, Leased(e.token, s.now + cfg.lease));
    } else {
      OthersRestate(cfg, s, e);
    }
  }

  /** An attempt that completes a task at the current version has made both stores show the memory. */
  lemma CompletionShows(cfg: Config, s: State, e: Event)
    requires AttemptsOk(s) && SourcesOk(s) && StepsOk(cfg, s) && Enabled(s, e) && e.Complete?
    ensures var a := s.attempts[e.token];
            a.memory in s.db.memories
            && (s.db.memories[a.memory].version == a.version ==> Shown(cfg, s, a.memory))
  {
    assert SourceOk(s.db, s.attempts[e.token]);
  }

  /** The agreement, with what it rests on while workers hold locks. */
  ghost predicate AgreeSafely(cfg: Config, s: State) {
    Agree(cfg, s) && StepsOk(cfg, s)
  }

  lemma KeepsAgree(cfg: Config, s: State, e: Event)
    requires Inv(cfg, s) && AgreeSafely(cfg, s) && Enabled(s, e) && Owned(s, e) && UnderLock(s, e)
    ensures AgreeSafely(cfg, Apply(cfg, s, e))
  {
    KeepsSteps(cfg, s, e);
    if IsMutation(e) {
      MutationKeepsAgree(cfg, s, e);
    } else if e.StoreOk? || e.StoreFail? {
      StoreEventKeepsAgree(cfg, s, e);
    } else {
      OtherEventKeepsAgree(cfg, s, e);
    }
  }

  /** Every store call of the run is made before its lease expires and under the row lock. */
  ghost predicate Respectful(cfg: Config, s: State, events: seq<Event>)
    requires IsRun(cfg, s, events)
    decreases |events|
  {
    events != [] ==> InLease(s, events[0]) && UnderLock(s, events[0]) && Respectful(cfg, Apply(cfg, s, events[0]), events[1..])
  }

  /**
   Main result: over every run in which no store call is made after its lease has expired or
   its lock was lost, and whatever else fails, crashes or changes in between, each memory has an
   uncompleted task at its current version or both stores hold exactly its current projection.
   */
  lemma {:induction false} RunKeepsAgree(cfg: Config, s: State, events: seq<Event>)
    requires Inv(cfg, s) && AgreeSafely(cfg, s) && IsRun(cfg, s, events) && Respectful(cfg, s, events)
    ensures AgreeSafely(cfg, After(cfg, s, events))
    decreases |events|
  {
    if events != [] {
      assert LeasesOk(s);
      hide Inv, Enabled, Apply, AgreeSafely, InLease, Owned, UnderLock, LeasesOk;
      InLeaseIsOwned(s, events[0]);
      KeepsAgree(cfg, s, events[0]);
      KeepsInv(cfg, s, events[0]);
      RunKeepsAgree(cfg, Apply(cfg, s, events[0]), events[1..]);
    }
  }

  /******* The quiescent index *******/

  function AllEntries(cfg: Config, rows: Rows): set<Entry> {
    set id, e | id in rows && e in Entries(cfg, id, rows[id]) :: e
  }

  /** The index as a function of the memories table. */
  function Projected(cfg: Config, rows: Rows): Index {
    map e | e in AllEntries(cfg, rows) && e.document in rows :: Meta(rows[e.document].user, rows[e.document].version)
  }

  lemma WholeIndex(cfg: Config, db: Tables, index: Index)
    requires VersionsOk(db.memories, db.past) && Genuine(cfg, db, index)
    requires forall id :: id in db.memories ==> DocumentIn(index, id) == Document(cfg, id, db.memories[id])
    ensures index == Projected(cfg, db.memories)
  {
    var p := Projected(cfg, db.memories);
    assert forall id, e :: id in db.memories && e in Entries(cfg, id, db.memories[id]) ==> e.document == id;
    hide Entries;
    forall e | e in index
      ensures e in p && p[e] == index[e]
    {
      var id := e.document;
      assert (id, index[e].version) in db.past;
      assert e in DocumentIn(index, id);
      assert e in Document(cfg, id, db.memories[id]);
      assert DocumentIn(index, id)[e] == index[e];
    }
    forall e | e in p
      ensures e in index
    {
      var id := e.document;
      assert e in Document(cfg, id, db.memories[id]);
      assert e in DocumentIn(index, id);
    }
  }

  /** Main result: once all tasks are completed, both stores are the function of the memories table. */
  lemma QuiescentIndex(cfg: Config, s: State)
    requires Inv(cfg, s) && Agree(cfg, s)
    requires forall t :: t in s.db.tasks ==> s.db.tasks[t].status.Completed?
    ensures s.dense == Projected(cfg, s.db.memories) && s.text == Projected(cfg, s.db.memories)
  {
    assert forall id :: id in s.db.memories ==> Shown(cfg, s, id);
    hide Pending, DocumentIn, Document, Projected, Genuine;
    WholeIndex(cfg, s.db, s.dense);
    WholeIndex(cfg, s.db, s.text);
  }

  /******* Exactly which store calls break the agreement *******/

  predicate Deletes(step: Step) {
    step.DeleteDense? || step.DeleteText?
  }

  /** What a call to a store does, in whole or in part, spoils nothing of the shown row. */
  ghost predicate Harmless(cfg: Config, id: string, row: Row, source: Row, step: Step, part: set<Entry>) {
    if Deletes(step) then Document(cfg, id, row).Keys !! part
    else source == row || Document(cfg, id, source).Keys !! part
  }

  /** A part of a document taken out of it, and a part of another version's document added to it. */
  lemma PartsOfShown(cfg: Config, id: string, row: Row, source: Row, part: set<Entry>)
    requires source == row || source.version != row.version
    ensures Without(Document(cfg, id, row), part) == Document(cfg, id, row) <==> Document(cfg, id, row).Keys !! part
    ensures Document(cfg, id, row) + Part(Document(cfg, id, source), part) == Document(cfg, id, row)
       <==> source == row || Document(cfg, id, source).Keys !! part
  {
    var shown, written := Document(cfg, id, row), Part(Document(cfg, id, source), part);
    hide Entries;
    assert forall e :: e in shown ==> shown[e].version == row.version;
    assert forall e :: e in written <==> e in Document(cfg, id, source) && e in part;
    assert forall e :: e in written ==> written[e] == Meta(source.user, source.version);
    hide Document;
    if e :| e in written && source.version != row.version {
      assert (shown + written)[e].version == source.version;
    }
    if Without(shown, part) == shown {
      assert forall e :: e in shown ==> e in Without(shown, part);
    }
    if source == row || Document(cfg, id, source).Keys !! part {
      assert forall e :: e in written ==> e in shown && written[e] == shown[e];
      assert shown + written == shown;
    }
  }

  lemma ShownAfterCall(cfg: Config, s: State, id: string, source: Row, step: Step, part: set<Entry>)
    requires id in s.db.memories && Shown(cfg, s, id) && step != Finish
    requires source == s.db.memories[id] || source.version != s.db.memories[id].version
    ensures Shown(cfg, StoreEffect(cfg, s, id, source, step, part), id)
       <==> Harmless(cfg, id, s.db.memories[id], source, step, part)
  {
    PartsOfShown(cfg, id, s.db.memories[id], source, part);
    WithoutElsewhere(s.dense, id, part, id);
    WithoutElsewhere(s.text, id, part, id);
    PartElsewhere(cfg, s.dense, id, source, part, id);
    PartElsewhere(cfg, s.text, id, source, part, id);
    hide DocumentIn, Document, Without, Part;
  }

  /**
   Without any assumption on leases and locks, for calls that succeed and for calls that fail
   after any part of their work: a store call keeps the agreement if and only if the memory
   still has a task to complete at its current version, or the call takes away no entry of the
   current row and adds none of another version. So a worker that outlived its lease or its
   lock does harm exactly when the current task was completed by somebody else.
   */
  lemma StoreCallKeepsAgreeExactly(cfg: Config, s: State, e: Event, id: string)
    requires Inv(cfg, s) && Agree(cfg, s) && Enabled(s, e) && (e.StoreOk? || e.StoreFail?)
    requires id == s.attempts[e.token].memory && id in s.db.memories
    ensures var phase := s.attempts[e.token].phase;
            Agree(cfg, Apply(cfg, s, e))
            <==> Pending(s.db, id) || Harmless(cfg, id, s.db.memories[id], phase.source, phase.step, DonePart(cfg, s, e))
  {
    hide *;
    InCall(s, e);
    var a := s.attempts[e.token];
    SourceVersions(cfg, s, e.token);
    StoreEventIs(cfg, s, e);
    OthersShown(cfg, s, e, id);
    CallDecides(cfg, s, Apply(cfg, s, e), id, a.phase.source, a.phase.step, DonePart(cfg, s, e));
  }

  lemma InCall(s: State, e: Event)
    requires Enabled(s, e) && (e.StoreOk? || e.StoreFail?)
    ensures InStoreCall(s, e.token) && e.token in s.attempts
    ensures var phase := s.attempts[e.token].phase; (phase.Locked? || phase.Adrift?) && phase.step != Finish
  {
  }

  lemma OthersShown(cfg: Config, s: State, e: Event, id: string)
    requires Enabled(s, e) && (e.StoreOk? || e.StoreFail?) && id == s.attempts[e.token].memory
    ensures Apply(cfg, s, e).db == s.db
    ensures forall other :: other in s.db.memories && other != id ==> (Shown(cfg, s, other) <==> Shown(cfg, Apply(cfg, s, e), other))
  {
    StoreEventKeepsTables(cfg, s, e);
    hide Apply, Shown;
    forall other | other in s.db.memories && other != id
      ensures Shown(cfg, s, other) <==> Shown(cfg, Apply(cfg, s, e), other)
    {
      StoreEventElsewhere(cfg, s, e, other);
    }
  }

  /** The rest of the argument, for the call's memory and any state with the call's effect on the stores. */
  lemma CallDecides(cfg: Config, s: State, n: State, id: string, source: Row, step: Step, part: set<Entry>)
    requires Agree(cfg, s) && n.db == s.db && id in s.db.memories && step != Finish
    requires source == s.db.memories[id] || source.version != s.db.memories[id].version
    requires var m := StoreEffect(cfg, s, id, source, step, part); n.dense == m.dense && n.text == m.text
    requires forall other :: other in s.db.memories && other != id ==> (Shown(cfg, s, other) <==> Shown(cfg, n, other))
    ensures Agree(cfg, n) <==> Pending(s.db, id) || Harmless(cfg, id, s.db.memories[id], source, step, part)
  {
    hide StoreEffect, Agree, Pending, Shown, Harmless;
    AgreeAt(cfg, s, n, id);
    if !Pending(s.db, id) {
      AgreeHere(cfg, s, id);
      ShownAfterCall(cfg, s, id, source, step, part);
      SameStoresShown(cfg, StoreEffect(cfg, s, id, source, step, part), n, id);
    }
  }

  /** A source that is not the current row has another version. */
  lemma SourceVersions(cfg: Config, s: State, token: nat)
    requires Inv(cfg, s) && InStoreCall(s, token)
    ensures var a := s.attempts[token];
            a.memory in s.db.memories
            && (a.phase.source == s.db.memories[a.memory] || a.phase.source.version != s.db.memories[a.memory].version)
  {
    hide Genuine, LeasesOk, LocksOk, TasksTotal, TasksUnique, CountsOk;
    assert SourceOk(s.db, s.attempts[token]);
  }

  /** A successful call touches whole documents, so it is harmless only where there is nothing to touch. */
  lemma WholeIsHarmless(cfg: Config, s: State, e: Event, id: string)
    requires Enabled(s, e) && e.StoreOk? && id == s.attempts[e.token].memory && id in s.db.memories && Shown(cfg, s, id)
    ensures var row, phase := s.db.memories[id], s.attempts[e.token].phase;
            Harmless(cfg, id, row, phase.source, phase.step, DonePart(cfg, s, e))
            <==> if Deletes(phase.step) then Document(cfg, id, row) == map[]
                 else phase.source == row || Document(cfg, id, phase.source) == map[]
  {
    hide Document, DocumentIn;
  }

  lemma AgreeHere(cfg: Config, s: State, id: string)
    requires Agree(cfg, s) && id in s.db.memories && !Pending(s.db, id)
    ensures Shown(cfg, s, id)
  {
    hide Shown;
  }

  lemma SameStoresShown(cfg: Config, s: State, n: State, id: string)
    requires s.db == n.db && s.dense == n.dense && s.text == n.text && id in s.db.memories
    ensures Shown(cfg, s, id) <==> Shown(cfg, n, id)
  {
  }

  lemma AgreeAt(cfg: Config, s: State, n: State, id: string)
    requires Agree(cfg, s) && n.db == s.db && id in s.db.memories
    requires forall other :: other in s.db.memories && other != id ==> (Shown(cfg, s, other) <==> Shown(cfg, n, other))
    ensures Agree(cfg, n) <==> Pending(s.db, id) || Shown(cfg, n, id)
  {
    hide Pending, DocumentIn, Document;
  }
}
