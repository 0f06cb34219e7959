/**
 The life of a generation job: it is queued, claimed by one worker, advanced through stages, and
 finished or released. Each session works on its own copy of the job and writes back what it has
 changed; claims lock the row, retries and the failure handler do not. Runs are proved to keep
 the job's shape and to conserve its claims, as long as no claim comes between an unlocked read
 and its write, and a run is shown in which one does.
 */
module Jobs {
  import opened Text
  import opened Wrappers

  /** The stages of a claimed attempt in their order. */
  datatype Stage =
    | Understanding | ResolvingDestination | Retrieving | RetrievingReviewedSources
    | SearchingLiveSources | VerifyingPois | Planning | Validating

  datatype Status = Queued | In(stage: Stage) | AwaitingConfirmation | Succeeded | Failed | Cancelled
  datatype Outcome = Preview | NoResult | Clarification | Unavailable

  /** The columns of a job that its protocol reads and writes. */
  datatype Job = Job(
    status: Status, progress: int, outcome: Option<Outcome>, preview: Option<string>, trace: Option<string>,
    attempts: nat, error: Option<string>, lastError: Option<string>, finished: bool)

  function Order(stage: Stage): nat {
    match stage
    case Understanding => 0
    case ResolvingDestination => 1
    case Retrieving => 2
    case RetrievingReviewedSources => 3
    case SearchingLiveSources => 4
    case VerifyingPois => 5
    case Planning => 6
    case Validating => 7
  }

  predicate Active(status: Status) {
    status.Queued? || status.In?
  }

  predicate Terminal(status: Status) {
    !Active(status)
  }

  function Created(trace: string): Job {
    Job(Queued, 0, None, None, Some(trace), 0, None, None, false)
  }

  /** An error code cut to its column, never empty. */
  function SafeCode(code: string): (safe: string)
    ensures 0 < |safe| <= 64
  {
    var s := Strip(code);
    var cut := if |s| <= 64 then s else s[..64];
    if cut == "" then "GENERATION_FAILED" else cut
  }

  /** A code that fits its column and has no white space at its ends is kept; a blank one is replaced. */
  lemma SafeCodeKeeps(code: string)
    ensures Blank(code) ==> SafeCode(code) == "GENERATION_FAILED"
    ensures 0 < |code| <= 64 && !IsSpace(code[0]) && !IsSpace(code[|code| - 1]) ==> SafeCode(code) == code
    ensures !Blank(code) ==> SafeCode(code) <= Strip(code) && (|SafeCode(code)| == 64 || SafeCode(code) == Strip(code))
  {
    hide Strip, Blank, IsSpace;
    StripBlank(code);
    if code != "" && !IsSpace(code[0]) && !IsSpace(code[|code| - 1]) {
      StripOfStripped(code);
    }
  }

  const DEPENDENCY_UNAVAILABLE := "AI_DEPENDENCY_UNAVAILABLE"
  const INVALID_DRAFT := "INVALID_DRAFT_SCHEMA"

  /******* Steps *******/

  /** How an attempt ends. */
  datatype Ending = IsUnavailable | IsInvalidDraft | HasNoResult(code: string) | HasPreview(id: string)

  /** Steps of the service. `Finish` and `Release` are made by the worker that holds the claim. */
  datatype Step =
    | Retry(newTrace: string)
    | Start(eventTrace: string, newTrace: string)
    | Progress(stage: Stage, progress: int, callerTrace: string)
    | Finish(ending: Ending)
    | Release(source: string)
    | Finalize

  predicate Retries(job: Job) {
    job.status.Failed? || job.status.Cancelled?
  }

  predicate Advances(job: Job, stage: Stage, progress: int, trace: string) {
    && 0 <= progress <= 99 && job.status.In? && job.trace == Some(trace)
    && Order(stage) >= Order(job.status.stage) && progress >= job.progress
  }

  function Finished(job: Job, ending: Ending): Job {
    var done := job.(progress := 100, finished := true);
    match ending
    case IsUnavailable =>
      done.(status := Failed, outcome := Some(Unavailable), error := Some(DEPENDENCY_UNAVAILABLE),
            lastError := Some(SafeCode(DEPENDENCY_UNAVAILABLE)))
    case IsInvalidDraft =>
      done.(status := Failed, outcome := Some(Unavailable), error := Some(INVALID_DRAFT), lastError := Some(SafeCode(INVALID_DRAFT)))
    case HasNoResult(code) =>
      done.(status := Succeeded, outcome := Some(NoResult), error := Some(SafeCode(code)), lastError := Some(SafeCode(SafeCode(code))))
    case HasPreview(id) =>
      done.(status := AwaitingConfirmation, outcome := Some(Preview), preview := Some(id), error := None, lastError := None)
  }

  function After(job: Job, step: Step): Job {
    match step
    case Retry(newTrace) =>
      if Retries(job)
      then job.(status := Queued, progress := 0, outcome := None, error := None, preview := None, finished := false,
                trace := Some(newTrace))
      else job
    case Start(eventTrace, newTrace) =>
      if job.status.Queued?
      then job.(attempts := job.attempts + 1, status := In(Understanding), progress := 10, outcome := None, lastError := None,
                error := None, finished := false,
                trace := if eventTrace != "" then Some(eventTrace)
                         else if job.trace.Some? && job.trace.value != "" then job.trace else Some(newTrace))
      else job
    case Progress(stage, progress, trace) =>
      if Advances(job, stage, progress, trace) then job.(status := In(stage), progress := progress) else job
    case Finish(ending) => if Active(job.status) then Finished(job, ending) else job
    case Release(source) => job.(status := Queued, progress := 0, lastError := Some("DEPENDENCY_UNAVAILABLE:" + source))
    case Finalize =>
      if !job.status.Queued? then job
      else
        var failed := Finished(job.(status := In(Understanding), progress := 10), IsUnavailable);
        if job.lastError.Some? && job.lastError.value != "" then failed.(error := job.lastError, lastError := job.lastError)
        else failed
  }

  /******* The service *******/

  /** A job as one session sees it: its methods change this copy, which is then written to the row. */
  class GenerationJob {
    var status: Status
    var progress: int
    var outcome: Option<Outcome>
    var preview: Option<string>
    var trace: Option<string>
    var attempts: nat
    var error: Option<string>
    var lastError: Option<string>
    var finished: bool

    function S(): Job
      reads this
    {
      Job(status, progress, outcome, preview, trace, attempts, error, lastError, finished)
    }

    /** The copy of a session that reads the row. */
    constructor Load(row: Job)
      ensures S() == row
    {
      status, progress, outcome, preview, trace := row.status, row.progress, row.outcome, row.preview, row.trace;
      attempts, error, lastError, finished := row.attempts, row.error, row.lastError, row.finished;
    }

    constructor (newTrace: string)
      ensures S() == Created(newTrace)
    {
      status, progress, outcome, preview := Queued, 0, None, None;
      attempts, error, lastError, finished := 0, None, None, false;
      trace := Some(newTrace);
    }

    method Enqueue(newTrace: string)
      modifies this`trace
      ensures trace == Some(newTrace)
    {
      trace := Some(newTrace);
    }

    method RetryJob(newTrace: string) returns (allowed: bool)
      modifies this
      ensures allowed == Retries(old(S())) && S() == After(old(S()), Retry(newTrace))
      ensures allowed == (old(status) == Failed || old(status) == Cancelled)
      ensures !allowed ==> S() == old(S())
      ensures allowed ==> status == Queued && progress == 0 && outcome == None && error == preview == None && !finished
                          && trace == Some(newTrace) && attempts == old(attempts) && lastError == old(lastError)
    {
      if status != Failed && status != Cancelled {
        return false;
      }
      status, progress := Queued, 0;
      outcome, error, preview, finished := None, None, None, false;
      Enqueue(newTrace);
      return true;
    }

    /** Claims a queued job; a delivery of a running or finished one gets nothing. */
    method StartAttempt(eventTrace: string, newTrace: string) returns (claimed: bool)
      modifies this
      ensures claimed == old(status).Queued? && S() == After(old(S()), Start(eventTrace, newTrace))
      ensures !claimed ==> S() == old(S())
      ensures claimed ==> status == In(Understanding) && progress == 10 && attempts == old(attempts) + 1 && !finished
                          && outcome == None && lastError == error == None && preview == old(preview)
                          && trace == (if eventTrace != "" then Some(eventTrace)
                                       else if old(trace) in {None, Some("")} then Some(newTrace) else old(trace))
    {
      if status != Queued {
        return false;
      }
      attempts := attempts + 1;
      if eventTrace != "" {
        trace := Some(eventTrace);
      } else if trace.None? || trace.value == "" {
        trace := Some(newTrace);
      }
      status, progress := In(Understanding), 10;
      outcome, lastError, error, finished := None, None, None, false;
      return true;
    }

    method MarkProgress(stage: Stage, reported: int, callerTrace: string) returns (moved: bool)
      modifies this`status, this`progress
      ensures moved == Advances(old(S()), stage, reported, callerTrace)
      ensures S() == After(old(S()), Progress(stage, reported, callerTrace))
      ensures moved <==> 0 <= reported <= 99 && old(status).In? && old(trace) == Some(callerTrace)
                         && Order(old(status).stage) <= Order(stage) && old(progress) <= reported
      ensures status == (if moved then In(stage) else old(status)) && progress == if moved then reported else old(progress)
    {
      if !(0 <= reported <= 99) {
        return false;
      }
      if !Active(status) || trace != Some(callerTrace) || status.Queued? {
        return false;
      }
      if Order(stage) < Order(status.stage) || reported < progress {
        return false;
      }
      status, progress := In(stage), reported;
      return true;
    }

    method MarkFinished(code: Option<string>)
      modifies this`lastError, this`finished
      ensures lastError == (if code.Some? then Some(SafeCode(code.value)) else None) && finished
    {
      lastError := if code.Some? then Some(SafeCode(code.value)) else None;
      finished := true;
    }

    method MarkUnavailable()
      modifies this
      ensures S() == After(old(S()), Finish(IsUnavailable))
      ensures Terminal(old(status)) ==> S() == old(S())
      ensures old(status).Queued? || old(status).In? ==>
                && status == Failed && progress == 100 && finished && outcome == Some(Unavailable)
                && error == lastError == Some("AI_DEPENDENCY_UNAVAILABLE")
                && preview == old(preview) && trace == old(trace) && attempts == old(attempts)
    {
      SafeCodeKeeps(DEPENDENCY_UNAVAILABLE);
      hide SafeCode;
      if !Active(status) {
        return;
      }
      status, progress, outcome := Failed, 100, Some(Unavailable);
      error := Some(DEPENDENCY_UNAVAILABLE);
      MarkFinished(error);
    }

    method MarkInvalidDraft()
      modifies this
      ensures S() == After(old(S()), Finish(IsInvalidDraft))
      ensures Terminal(old(status)) ==> S() == old(S())
      ensures old(status).Queued? || old(status).In? ==>
                && status == Failed && progress == 100 && finished && outcome == Some(Unavailable)
                && error == lastError == Some("INVALID_DRAFT_SCHEMA")
                && preview == old(preview) && trace == old(trace) && attempts == old(attempts)
    {
      SafeCodeKeeps(INVALID_DRAFT);
      hide SafeCode;
      if !Active(status) {
        return;
      }
      status, progress, outcome := Failed, 100, Some(Unavailable);
      error := Some(INVALID_DRAFT);
      MarkFinished(error);
    }

    method MarkNoResult(code: string)
      modifies this
      ensures S() == After(old(S()), Finish(HasNoResult(code)))
      ensures Terminal(old(status)) ==> S() == old(S())
      ensures old(status).Queued? || old(status).In? ==>
                && status == Succeeded && progress == 100 && finished && outcome == Some(NoResult)
                && error == Some(SafeCode(code)) && lastError == Some(SafeCode(SafeCode(code)))
                && preview == old(preview) && trace == old(trace) && attempts == old(attempts)
    {
      hide SafeCode;
      if !Active(status) {
        return;
      }
      status, progress, outcome := Succeeded, 100, Some(NoResult);
      error := Some(SafeCode(code));
      MarkFinished(error);
    }

    method MarkPreviewReady(id: string)
      modifies this
      ensures S() == After(old(S()), Finish(HasPreview(id)))
      ensures Terminal(old(status)) ==> S() == old(S())
      ensures old(status).Queued? || old(status).In? ==>
                && status == AwaitingConfirmation && progress == 100 && finished && outcome == Some(Preview)
                && preview == Some(id) && error == lastError == None && trace == old(trace) && attempts == old(attempts)
    {
      hide SafeCode;
      if !Active(status) {
        return;
      }
      status, progress, outcome := AwaitingConfirmation, 100, Some(Preview);
      preview := Some(id);
      error := None;
      MarkFinished(None);
    }

    /** Releases a claimed job for the next delivery. It does not look at the job's status. */
    method PrepareRetry(source: string)
      modifies this
      ensures S() == After(old(S()), Release(source))
      ensures status == Queued && progress == 0 && lastError == Some("DEPENDENCY_UNAVAILABLE:" + source)
      ensures outcome == old(outcome) && preview == old(preview) && trace == old(trace) && attempts == old(attempts)
              && error == old(error) && finished == old(finished)
    {
      status, progress := Queued, 0;
      lastError := Some("DEPENDENCY_UNAVAILABLE:" + source);
    }

    /** After the message is given up: a queued job fails, with the error its last attempt recorded. */
    method FinalizeFailure()
      modifies this
      ensures S() == After(old(S()), Finalize)
      ensures !old(status).Queued? ==> S() == old(S())
      ensures old(status).Queued? ==>
                && status == Failed && progress == 100 && finished && outcome == Some(Unavailable)
                && error == lastError == (if old(lastError) in {None, Some("")} then Some("AI_DEPENDENCY_UNAVAILABLE") else old(lastError))
                && preview == old(preview) && trace == old(trace) && attempts == old(attempts)
    {
      hide SafeCode;
      if status != Queued {
        return;
      }
      var recorded := lastError;
      status, progress := In(Understanding), 10;
      MarkUnavailable();
      if recorded.Some? && recorded.value != "" {
        error, lastError := recorded, recorded;
      }
    }
  }

  /******* The row and its sessions *******/

  /** A flush writes the columns that the session has changed since it read them. */
  function Written(row: Job, read: Job, copy: Job): Job {
    Job(if copy.status != read.status then copy.status else row.status,
        if copy.progress != read.progress then copy.progress else row.progress,
        if copy.outcome != read.outcome then copy.outcome else row.outcome,
        if copy.preview != read.preview then copy.preview else row.preview,
        if copy.trace != read.trace then copy.trace else row.trace,
        if copy.attempts != read.attempts then copy.attempts else row.attempts,
        if copy.error != read.error then copy.error else row.error,
        if copy.lastError != read.lastError then copy.lastError else row.lastError,
        if copy.finished != read.finished then copy.finished else row.finished)
  }

  /** The row with the transactions of retries and of the failure handler, which do not lock it. */
  class JobTable {
    var row: Job

    constructor (job: Job)
      ensures row == job
    {
      row := job;
    }

    /** Whatever other sessions commit. */
    method Others()
      modifies this
    {
      row := *;
    }

    /** `between` is the row when the retry is written. */
    method Retry(newTrace: string) returns (allowed: bool, ghost between: Job)
      modifies this
      ensures allowed == Retries(old(row))
      ensures row == if allowed then Written(between, old(row), After(old(row), Step.Retry(newTrace))) else old(row)
      ensures allowed == (old(row).status == Failed || old(row).status == Cancelled)
      ensures allowed ==> row.status == Queued && row.attempts == between.attempts && row.lastError == between.lastError
                          && (old(row).progress != 0 ==> row.progress == 0) && (old(row).outcome != None ==> row.outcome == None)
                          && row.preview == (if old(row).preview == None then between.preview else None)
                          && row.error == (if old(row).error == None then between.error else None)
    {
      between := row;
      var read := row;
      var job := new GenerationJob.Load(read);
      allowed := job.RetryJob(newTrace);
      if allowed {
        Others();
        between := row;
        row := Written(row, read, job.S());
      }
    }

    method Finalize() returns (ghost between: Job)
      modifies this
      ensures row == if old(row).status.Queued? then Written(between, old(row), After(old(row), Step.Finalize)) else old(row)
      ensures old(row).status == Queued ==> row.status == Failed && row.attempts == between.attempts
                                            && row.preview == between.preview && row.trace == between.trace
                                            && (old(row).progress != 100 ==> row.progress == 100)
    {
      between := row;
      var read := row;
      var job := new GenerationJob.Load(read);
      job.FinalizeFailure();
      if read.status.Queued? {
        Others();
        between := row;
        row := Written(row, read, job.S());
      }
    }
  }

  /******* Runs *******/

  /**
   A session that has read the job without a lock, to retry or to fail it. It is overtaken when
   a claim is committed before its write.
   */
  datatype Reader = Reader(read: Job, step: Step, overtaken: bool)

  /** The row, the unlocked readers, and the workers that hold a claim, whose sessions keep their copies for the whole attempt. */
  datatype System = System(job: Job, readers: map<nat, Reader>, workers: map<nat, Job>)

  function Initial(job: Job): System {
    System(job, map[], map[])
  }

  datatype Event =
    | Read(reader: nat, step: Step)
    | Write(reader: nat)
    | Claim(worker: nat, eventTrace: string, newTrace: string)
    | Work(worker: nat, step: Step)                                  // a step under the worker's claim
    | Report(stage: Stage, progress: int, callerTrace: string)       // progress under another trace id
    | Crash(worker: nat)

  predicate Enabled(s: System, e: Event) {
    match e
    case Read(k, step) => k !in s.readers && (step.Retry? || step.Finalize?)
    case Write(k) => k in s.readers
    case Claim(w, _, _) => w !in s.workers
    case Work(w, step) => w in s.workers && (step.Progress? || step.Finish? || step.Release?)
    case Report(_, _, trace) => s.job.trace != Some(trace)
    case Crash(w) => w in s.workers
  }

  /** The reader's guard holds, so it will write. */
  predicate Writes(r: Reader) {
    if r.step.Retry? then Retries(r.read) else r.read.status.Queued?
  }

  function Apply(s: System, e: Event): System
    requires Enabled(s, e)
  {
    match e
    case Read(k, step) => s.(readers := s.readers[k := Reader(s.job, step, false)])
    case Write(k) =>
      var r := s.readers[k];
      s.(job := Written(s.job, r.read, After(r.read, r.step)), readers := s.readers - {k})
    case Claim(w, eventTrace, newTrace) =>
      if s.job.status.Queued? then
        var job := After(s.job, Start(eventTrace, newTrace));
        System(job, map k | k in s.readers :: s.readers[k].(overtaken := true), s.workers[w := job])
      else
        s
    case Work(w, step) =>
      var copy := After(s.workers[w], step);
      s.(job := Written(s.job, s.workers[w], copy),
         workers := if step.Progress? then s.workers[w := copy] else s.workers - {w})
    case Report(stage, progress, trace) => s.(job := After(s.job, Progress(stage, progress, trace)))
    case Crash(w) => s.(workers := s.workers - {w})
  }

  ghost predicate IsRun(s: System, events: seq<Event>)
    decreases |events|
  {
    events != [] ==> Enabled(s, events[0]) && IsRun(Apply(s, events[0]), events[1..])
  }

  ghost function Last(s: System, events: seq<Event>): System
    requires IsRun(s, events)
    decreases |events|
  {
    if events == [] then s else Last(Apply(s, events[0]), events[1..])
  }

  /** No claim comes between the read and the write of a session that writes. */
  predicate Timely(s: System, e: Event) {
    e.Write? && e.reader in s.readers && Writes(s.readers[e.reader]) ==> !s.readers[e.reader].overtaken
  }

  ghost predicate TimelyRun(s: System, events: seq<Event>)
    requires IsRun(s, events)
    decreases |events|
  {
    events != [] ==> Timely(s, events[0]) && TimelyRun(Apply(s, events[0]), events[1..])
  }

  /** The shape of a job in each status. */
  predicate Shaped(job: Job) {
    && (job.status.Queued? ==> job.progress == 0)
    && (job.status.In? ==> 10 <= job.progress <= 99 && job.trace.Some?)
    && (Terminal(job.status) <==> job.progress == 100)
    && (job.finished <==> Terminal(job.status))
    && (job.preview.Some? <==> job.status.AwaitingConfirmation?)
    && (Active(job.status) ==> job.outcome.None?)
    && (job.status.AwaitingConfirmation? ==> job.outcome == Some(Preview))
    && (job.status.Succeeded? ==> job.outcome == Some(NoResult))
    && (job.status.Failed? ==> job.outcome == Some(Unavailable))
    && !job.status.Cancelled?
  }

  /** At most one worker holds a claim, its copy is the row, and the row is in a stage. */
  predicate ClaimsOk(s: System) {
    && (forall w :: w in s.workers ==> s.workers[w] == s.job && s.job.status.In?)
    && (forall v, w :: v in s.workers && w in s.workers ==> v == w)
  }

  /** Nobody holds a claim while a session is about to write that was not overtaken. */
  predicate ReadersOk(s: System) {
    forall k :: k in s.readers ==>
      var r := s.readers[k];
      && Shaped(r.read) && (r.step.Retry? || r.step.Finalize?)
      && (Writes(r) && !r.overtaken ==> s.workers == map[] && (s.job.status.Queued? || s.job.status.Failed?))
  }

  predicate Inv(s: System) {
    Shaped(s.job) && ClaimsOk(s) && ReadersOk(s)
  }

  lemma CreatedInv(trace: string)
    ensures Inv(Initial(Created(trace)))
  {
  }

  /** What a session makes of the row when nobody else wrote in between. */
  lemma WrittenAlone(read: Job, copy: Job)
    ensures Written(read, read, copy) == copy
  {
  }

  /** What an unlocked write makes of any row. */
  lemma WriteIs(s: System, k: nat)
    requires ReadersOk(s) && k in s.readers
    ensures var r := s.readers[k]; var n := Apply(s, Write(k)).job;
            && n.preview == s.job.preview && n.attempts == s.job.attempts
            && (!Writes(r) ==> n == s.job)
            && (Writes(r) && r.step.Retry? ==>
                  n.status == Queued && n.progress == 0 && n.outcome == None && !n.finished)
            && (Writes(r) && r.step.Finalize? ==>
                  n.status == Failed && n.progress == 100 && n.outcome == Some(Unavailable) && n.finished)
  {
    hide SafeCode;
  }

  /**
   Exactly which unlocked writes keep the invariant: those that come while no claim is held and
   no preview awaits confirmation.
   */
  lemma WriteKeepsInvExactly(s: System, k: nat)
    requires Inv(s) && k in s.readers && Writes(s.readers[k])
    ensures Inv(Apply(s, Write(k))) <==> s.workers == map[] && !s.job.status.AwaitingConfirmation?
  {
    WriteIs(s, k);
    hide After, Written;
    var n := Apply(s, Write(k));
    if s.workers != map[] {
      assert s.workers.Keys != {};
      var w :| w in s.workers;
      assert w in n.workers && !n.job.status.In?;
    }
  }

  lemma WorkIs(s: System, e: Event)
    requires ClaimsOk(s) && Enabled(s, e) && e.Work?
    ensures Apply(s, e).job == After(s.job, e.step)
    ensures e.step.Progress? ==> Apply(s, e).workers == map[e.worker := After(s.job, e.step)]
    ensures !e.step.Progress? ==> Apply(s, e).workers == map[]
  {
    WrittenAlone(s.job, After(s.job, e.step));
    hide After, Written;
    assert s.workers.Keys == {e.worker};
  }

  lemma StepShapes(job: Job, step: Step)
    requires Shaped(job) && (step.Release? ==> job.status.In?)
    ensures Shaped(After(job, step))
    ensures job.status.In? && step.Progress? ==> After(job, step).status.In?
  {
    hide SafeCode;
  }

  lemma WorkKeepsInv(s: System, e: Event)
    requires Inv(s) && Enabled(s, e) && e.Work?
    ensures Inv(Apply(s, e))
  {
    WorkIs(s, e);
    StepShapes(s.job, e.step);
    hide After, Written, Shaped;
    assert e.worker in s.workers;
  }

  lemma ClaimKeepsInv(s: System, e: Event)
    requires Inv(s) && Enabled(s, e) && e.Claim?
    ensures Inv(Apply(s, e))
  {
    if s.job.status.Queued? {
      assert s.workers == map[] by {
        if w :| w in s.workers {
          assert false;
        }
      }
      StepShapes(s.job, Start(e.eventTrace, e.newTrace));
    }
  }

  lemma KeepsInv(s: System, e: Event)
    requires Inv(s) && Enabled(s, e) && Timely(s, e)
    ensures Inv(Apply(s, e))
  {
    if e.Write? {
      WriteIs(s, e.reader);
      if Writes(s.readers[e.reader]) {
        WriteKeepsInvExactly(s, e.reader);
      }
      hide After, Written, Shaped;
    } else if e.Work? {
      WorkKeepsInv(s, e);
    } else if e.Claim? {
      ClaimKeepsInv(s, e);
    } else {
      hide Shaped;
    }
  }

  /**
   Over all runs without a claim between an unlocked read and its write: the progress is 0 when
   queued, 10 to 99 in a stage and 100 exactly when the job is finished; a preview is set exactly
   while it awaits confirmation; one worker at most holds a claim, and only in a stage.
   */
  lemma {:induction false} RunKeepsInv(s: System, events: seq<Event>)
    requires Inv(s) && IsRun(s, events) && TimelyRun(s, events)
    ensures Inv(Last(s, events))
    decreases |events|
  {
    hide Apply, Enabled, Timely, Inv;
    if events != [] {
      KeepsInv(s, events[0]);
      RunKeepsInv(Apply(s, events[0]), events[1..]);
    }
  }

  /** Within an attempt, stage and progress never go back and the attempt count stays. */
  lemma AttemptIsMonotone(s: System, e: Event)
    requires Inv(s) && Enabled(s, e) && s.job.status.In? && Apply(s, e).job.status.In?
    ensures var n := Apply(s, e).job;
            && Order(s.job.status.stage) <= Order(n.status.stage) && s.job.progress <= n.progress
            && n.attempts == s.job.attempts && n.trace == s.job.trace
  {
    hide SafeCode;
    if e.Write? {
      WriteIs(s, e.reader);
      hide After, Written;
    } else if e.Work? {
      WorkIs(s, e);
      hide Written;
    }
  }

  lemma {:induction false} AttemptIsMonotoneInRuns(s: System, events: seq<Event>)
    requires Inv(s) && IsRun(s, events) && TimelyRun(s, events) && StaysClaimed(s, events)
    ensures var n := Last(s, events).job;
            && n.status.In? && Order(s.job.status.stage) <= Order(n.status.stage) && s.job.progress <= n.progress
            && n.attempts == s.job.attempts && n.trace == s.job.trace
    decreases |events|
  {
    hide Apply, Enabled, Timely, Inv;
    if events != [] {
      KeepsInv(s, events[0]);
      AttemptIsMonotone(s, events[0]);
      AttemptIsMonotoneInRuns(Apply(s, events[0]), events[1..]);
    }
  }

  ghost predicate StaysClaimed(s: System, events: seq<Event>)
    requires IsRun(s, events)
    decreases |events|
  {
    s.job.status.In? && (events != [] ==> StaysClaimed(Apply(s, events[0]), events[1..]))
  }

  /**
   While a worker holds the claim, an event that is not its own changes the job exactly if it is
   the write of an overtaken session. So nobody else does in runs without such writes: another
   delivery finds nothing to claim, and another trace id moves nothing.
   */
  lemma HeldIsExclusive(s: System, e: Event)
    requires Inv(s) && s.workers != map[] && Enabled(s, e) && !e.Work?
    ensures Apply(s, e).job == s.job <==> Timely(s, e)
  {
    assert s.workers.Keys != {};
    var w :| w in s.workers;
    if e.Write? {
      WriteIs(s, e.reader);
    }
    hide Written;
  }

  /******* An overtaken write *******/

  ghost predicate Reaches(s: System, n: System) {
    exists events :: IsRun(s, events) && Last(s, events) == n
  }

  lemma ReachesSelf(s: System)
    ensures Reaches(s, s)
  {
    assert IsRun(s, []) && Last(s, []) == s;
  }

  lemma {:induction false} OneMoreEvent(s: System, events: seq<Event>, e: Event)
    requires IsRun(s, events) && Enabled(Last(s, events), e)
    ensures IsRun(s, events + [e]) && Last(s, events + [e]) == Apply(Last(s, events), e)
    decreases |events|
  {
    hide Apply, Enabled;
    if events == [] {
      assert [] + [e] == [e] && [e][1..] == [];
      assert IsRun(Apply(s, e), []);
    } else {
      OneMoreEvent(Apply(s, events[0]), events[1..], e);
      assert (events + [e])[0] == events[0] && (events + [e])[1..] == events[1..] + [e];
    }
  }

  lemma Forward(s: System, m: System, e: Event) returns (n: System)
    requires Reaches(s, m) && Enabled(m, e)
    ensures n == Apply(m, e) && Reaches(s, n)
  {
    hide Apply, Enabled, IsRun, Last;
    n := Apply(m, e);
    var events :| IsRun(s, events) && Last(s, events) == m;
    OneMoreEvent(s, events, e);
  }

  /** The first attempt has failed, and two sessions have read that, to retry the job. */
  lemma TwoReaders(trace: string) returns (s: System)
    ensures Reaches(Initial(Created(trace)), s) && s.workers == map[]
    ensures s.readers.Keys == {1, 2} && Retries(s.job) && Shaped(s.job)
    ensures s.readers[1] == Reader(s.job, Retry("a"), false) && s.readers[2] == Reader(s.job, Retry("b"), false)
  {
    hide Reaches, SafeCode, Written;
    var start := Initial(Created(trace));
    ReachesSelf(start);
    var s1 := Forward(start, start, Claim(1, "", trace));
    CreatedInv(trace);
    ClaimKeepsInv(start, Claim(1, "", trace));
    WorkIs(s1, Work(1, Finish(IsUnavailable)));
    WorkKeepsInv(s1, Work(1, Finish(IsUnavailable)));
    var s2 := Forward(start, s1, Work(1, Finish(IsUnavailable)));
    var s3 := Forward(start, s2, Read(1, Retry("a")));
    s := Forward(start, s3, Read(2, Retry("b")));
  }

  /**
   The assumption is needed: a run of the service after which a claimed job is in the queue, and
   one more claim gives it to a second worker. Two retries read the failed job, the first is
   written, the job is claimed, and then the second retry is written.
   */
  lemma OvertakenRetryUnclaims(trace: string)
    ensures exists s, n :: && Reaches(Initial(Created(trace)), s) && s.job.status.Queued? && s.workers.Keys == {2}
                           && Reaches(Initial(Created(trace)), n) && n.workers.Keys == {2, 3}
  {
    hide Reaches, SafeCode, Written;
    var start := Initial(Created(trace));
    var s := TwoReaders(trace);
    assert ReadersOk(s);
    WriteIs(s, 1);
    var s1 := Forward(start, s, Write(1));
    var s2 := Forward(start, s1, Claim(2, "", trace));
    assert s2.workers.Keys == {2} && s2.readers.Keys == {2};
    WriteIs(s2, 2);
    var s3 := Forward(start, s2, Write(2));
    var s4 := Forward(start, s3, Claim(3, "", trace));
    assert s4.workers.Keys == {2, 3};
  }

  /******* Conservation of claims *******/

  predicate Claims(s: System, e: Event) {
    e.Claim? && s.job.status.Queued?
  }

  /** The event brings a job that was not queued back into the queue. */
  predicate Returns(s: System, e: Event)
    requires Enabled(s, e)
  {
    !s.job.status.Queued? && Apply(s, e).job.status.Queued?
  }

  /** The event fails a job that was queued, without a claim. */
  predicate GivesUp(s: System, e: Event)
    requires Enabled(s, e)
  {
    s.job.status.Queued? && e.Write? && s.readers[e.reader].step.Finalize? && Writes(s.readers[e.reader])
  }

  function One(b: bool): nat {
    if b then 1 else 0
  }

  function InQueue(s: System): nat {
    One(s.job.status.Queued?)
  }

  ghost function CountClaims(s: System, events: seq<Event>): nat
    requires IsRun(s, events)
    decreases |events|
  {
    if events == [] then 0 else One(Claims(s, events[0])) + CountClaims(Apply(s, events[0]), events[1..])
  }

  ghost function CountReturns(s: System, events: seq<Event>): nat
    requires IsRun(s, events)
    decreases |events|
  {
    if events == [] then 0 else One(Returns(s, events[0])) + CountReturns(Apply(s, events[0]), events[1..])
  }

  ghost function CountGivenUp(s: System, events: seq<Event>): nat
    requires IsRun(s, events)
    decreases |events|
  {
    if events == [] then 0 else One(GivesUp(s, events[0])) + CountGivenUp(Apply(s, events[0]), events[1..])
  }

  /**
   Conservation over every run without an overtaken write: each claim and each giving up uses up
   one stay in the queue, and only creation, retry and release give one. So two claims are always
   separated by a return to the queue. The attempt count is the number of claims.
   */
  lemma {:induction false} ClaimsAreConserved(s: System, events: seq<Event>)
    requires Inv(s) && IsRun(s, events) && TimelyRun(s, events)
    ensures var n := Last(s, events);
            && CountClaims(s, events) + CountGivenUp(s, events) + InQueue(n) == InQueue(s) + CountReturns(s, events)
            && n.job.attempts == s.job.attempts + CountClaims(s, events)
    decreases |events|
  {
    if events != [] {
      StepConserves(s, events[0]);
      KeepsInv(s, events[0]);
      hide After, Apply, Enabled, Timely, Inv, Claims, GivesUp, Returns, InQueue;
      ClaimsAreConserved(Apply(s, events[0]), events[1..]);
    }
  }

  lemma StepConserves(s: System, e: Event)
    requires Inv(s) && Enabled(s, e)
    ensures var n := Apply(s, e);
            && One(Claims(s, e)) + One(GivesUp(s, e)) + InQueue(n) == InQueue(s) + One(Returns(s, e))
            && n.job.attempts == s.job.attempts + One(Claims(s, e))
  {
    hide SafeCode;
    if e.Write? {
      WriteIs(s, e.reader);
      hide After, Written;
    } else if e.Work? {
      assert e.worker in s.workers;
      WorkIs(s, e);
      hide Written;
    }
  }

  /******* The worker *******/

  /** The workflow's phases with the progress that the worker reports for each. */
  function Reported(stage: Stage): Option<int> {
    match stage
    case Retrieving => Some(20)
    case RetrievingReviewedSources => Some(30)
    case SearchingLiveSources => Some(45)
    case VerifyingPois => Some(60)
    case Planning => Some(75)
    case Validating => Some(90)
    case _ => None
  }

  /** The stages in the order in which an attempt may pass through them. */
  lemma StagesInOrder(stage: Stage)
    ensures Order(stage) < 8
    ensures [Understanding, ResolvingDestination, Retrieving, RetrievingReviewedSources,
             SearchingLiveSources, VerifyingPois, Planning, Validating][Order(stage)] == stage
  {
  }

  /** The worker's progress table rises with the order of the stages. */
  lemma ReportsRise(a: Stage, b: Stage)
    requires Reported(a).Some? && Reported(b).Some?
    ensures Reported(a).value < Reported(b).value <==> Order(a) < Order(b)
    ensures Order(a) == Order(b) ==> a == b
    ensures 10 < Reported(a).value <= 99
  {
  }

  /** How the workflow ends; the last two raise, and the message is delivered again or given up. */
  datatype WorkResult =
    | PreviewSaved(id: string) | NoPreview | NotEnoughPlaces | Violation | BadRequest | BadDraft
    | DependencyDown(source: string) | Unexpected

  predicate Raises(result: WorkResult) {
    result.DependencyDown? || result.Unexpected?
  }

  /**
   One delivery of a generation request. Only a queued job is worked on; then it ends finished, or
   back in the queue exactly if the handler raises, so that the broker delivers the message again.
   */
  method RunGeneration(job: GenerationJob, eventTrace: string, newTrace: string, enabled: bool,
                       phases: seq<Stage>, result: WorkResult)
    returns (raised: bool)
    requires Shaped(job.S()) && newTrace != ""
    modifies job
    ensures Shaped(job.S())
    ensures !old(job.status.Queued?) ==> !raised && job.S() == old(job.S())
    ensures old(job.status.Queued?) ==>
              && job.attempts == old(job.attempts) + 1
              && raised == (enabled && Raises(result))
              && (raised <==> job.status.Queued?)
              && (enabled && result.PreviewSaved? <==> job.status.AwaitingConfirmation?)
              && (job.status.AwaitingConfirmation? ==> job.preview == Some(result.id))
  {
    hide SafeCode;
    var claimed := job.StartAttempt(eventTrace, newTrace);
    if !claimed {
      return false;
    }
    if !enabled {
      job.MarkUnavailable();
      return false;
    }
    ReportPhases(job, phases);
    match result {
      case PreviewSaved(id) => job.MarkPreviewReady(id);
      case NoPreview => job.MarkNoResult("PREVIEW_NOT_CREATED");
      case NotEnoughPlaces => job.MarkNoResult("INSUFFICIENT_VERIFIED_CANDIDATES");
      case Violation => job.MarkNoResult("CONSTRAINT_VIOLATION");
      case BadRequest => job.MarkNoResult("INVALID_REQUEST");
      case BadDraft => job.MarkInvalidDraft();
      case DependencyDown(source) =>
        job.PrepareRetry(source);
        return true;
      case Unexpected =>
        job.PrepareRetry("unexpected");
        return true;
    }
    return false;
  }

  /** Reports each phase; phases of a second planning pass that would step back are ignored. */
  method ReportPhases(job: GenerationJob, phases: seq<Stage>)
    requires Shaped(job.S()) && job.status.In?
    modifies job`status, job`progress
    ensures Shaped(job.S()) && job.status.In?
    ensures Order(old(job.status.stage)) <= Order(job.status.stage) && old(job.progress) <= job.progress
    ensures forall k | 0 <= k < |phases| && Reported(phases[k]).Some? && old(OnTable(job.S())) ::
              Order(phases[k]) <= Order(job.status.stage)
    ensures old(OnTable(job.S())) ==> OnTable(job.S())
  {
    for i := 0 to |phases|
      invariant Shaped(job.S()) && job.status.In?
      invariant Order(old(job.status.stage)) <= Order(job.status.stage) && old(job.progress) <= job.progress
      invariant old(OnTable(job.S())) ==> OnTable(job.S())
      invariant forall k | 0 <= k < i && Reported(phases[k]).Some? && old(OnTable(job.S())) ::
                  Order(phases[k]) <= Order(job.status.stage)
    {
      var progress := Reported(phases[i]);
      if progress.Some? {
        var moved := job.MarkProgress(phases[i], progress.value, job.trace.value);
      }
    }
  }

  /** The stage and the progress are those of the worker's table, so a later stage always advances. */
  predicate OnTable(job: Job) {
    job.status.In? && ((job.status.stage.Understanding? && job.progress == 10) || Reported(job.status.stage) == Some(job.progress))
  }
}
