/**
 * One email notification as a labelled transition system: the producer
 * (enqueueEmailNotification), the queue job, the worker (process) and the event handlers
 * (onJobCompleted, onJobFailed) all write the same two rows, each at its own pace.
 * Every I/O call is one step and its label says whether the call succeeds.
 */
module DeliveryProtocol {
  import opened Options
  import opened JobQueue

  datatype DeliveryStatus = Draft | Queued | Sent | Failed | Cancelled

  datatype JobStatus = JobQueued | Running | Retrying | Completed | JobFailed

  datatype JobRow = JobRow(status: JobStatus, retryCount: nat)

  datatype Config = Config(attempts: Attempts, attachment: bool)

  /** Where enqueueEmailNotification stands; `Aborted` means it threw to its caller. */
  datatype Producer = CreateRow | CreateJob | AddJob | MarkQueued
                    | MarkRowFailed | MarkJobFailed | Done | Aborted

  /** Where the current run of `process` stands. */
  datatype Worker = Find | Skip | MarkRunning | Download | Send | MarkSent | Returned | Thrown

  /** The queue's view of the job; `made` is attemptsMade. */
  datatype Job = NoJob | Waiting(made: nat) | Active(made: nat, at: Worker) | Finished(made: nat, success: bool)

  /** An event handler, at its next write. Handlers run beside later attempts. */
  datatype Handler = CompleteJob | BumpRetry | SetRetrying | FailRow | FailJob | Handled

  /** What happened so far. Nothing in the protocol reads it. */
  datatype Log = Log(
    sends: nat,              // sendMail reported success
    runs: nat,               // process was started
    sentMarks: nat,          // SENT written
    failedSentMarks: nat,    // SENT write failed after a successful send
    deathsAfterSend: nat,    // the worker died between a successful send and the SENT write
    deaths: nat,             // the worker died inside process
    failedMarks: nat,        // FAILED written by a failed-event handler
    queuedMark: bool,        // QUEUED written
    late: bool,              // QUEUED written over SENT or FAILED
    lateOverFailed: bool,    // QUEUED written over FAILED
    completedMark: bool,     // job row COMPLETED written by a handler
    jobFailedMark: bool,     // job row FAILED written by a handler
    stale: bool,             // RETRYING written over COMPLETED or FAILED, not overwritten since
    lostWrites: nat,         // ledger writes that failed, a failed SENT write included
    lostBumps: nat,          // of these, retry_count increments
    finals: seq<nat>,        // failed events whose handler found isFinal
    retries: nat)            // failed events whose handler did not

  datatype State = State(
    config: Config,
    producer: Producer,
    notification: Option<DeliveryStatus>,
    row: Option<JobRow>,
    job: Job,
    handlers: seq<Handler>,
    redeliveries: nat,       // how often the queue will still hand out a job whose worker died
    log: Log)

  const EMPTY_LOG := Log(0, 0, 0, 0, 0, 0, 0, false, false, false, false, false, false, 0, 0, [], 0)

  function Init(config: Config, redeliveries: nat): State {
    State(config, CreateRow, None, None, NoJob, [], redeliveries, EMPTY_LOG)
  }

  predicate Terminal(status: DeliveryStatus) {
    status.Sent? || status.Failed? || status.Cancelled?
  }

  predicate TerminalJob(status: JobStatus) {
    status.Completed? || status.JobFailed?
  }

  // ---- Ledger writes: an UPDATE of a missing row changes nothing and does not fail. ----

  function WriteStatus(notification: Option<DeliveryStatus>, status: DeliveryStatus): Option<DeliveryStatus> {
    if notification.Some? then Some(status) else None
  }

  function WriteJobStatus(row: Option<JobRow>, status: JobStatus): Option<JobRow> {
    if row.Some? then Some(row.value.(status := status)) else None
  }

  function IncrementRetries(row: Option<JobRow>): Option<JobRow> {
    if row.Some? then Some(row.value.(retryCount := row.value.retryCount + 1)) else None
  }

  function LoseWrite(log: Log): Log {
    log.(lostWrites := log.lostWrites + 1)
  }

  // ---- Producer ----

  predicate ProducerEnabled(s: State) {
    !s.producer.Done? && !s.producer.Aborted?
  }

  function ProducerStep(s: State, ok: bool): State
    requires ProducerEnabled(s)
  {
    match s.producer
    case CreateRow =>
      if ok then s.(notification := Some(Draft), producer := CreateJob)
      else s.(producer := Aborted, log := LoseWrite(s.log))
    case CreateJob =>
      if ok then s.(row := Some(JobRow(JobQueued, 0)), producer := AddJob)
      else s.(producer := Aborted, log := LoseWrite(s.log))
    case AddJob =>
      if ok then s.(job := Waiting(0), producer := MarkQueued) else s.(producer := MarkRowFailed)
    case MarkQueued =>
      if ok then
        s.(notification := WriteStatus(s.notification, Queued), producer := Done,
           log := s.log.(queuedMark := true,
                         late := s.notification.Some? && Terminal(s.notification.value),
                         lateOverFailed := s.notification == Some(Failed)))
      else s.(producer := Aborted, log := LoseWrite(s.log))
    case MarkRowFailed =>
      if ok then s.(notification := WriteStatus(s.notification, Failed), producer := MarkJobFailed)
      else s.(producer := Aborted, log := LoseWrite(s.log))
    case MarkJobFailed =>
      if ok then s.(row := WriteJobStatus(s.row, JobFailed), producer := Done)
      else s.(producer := Aborted, log := LoseWrite(s.log))
  }

  // ---- Worker ----

  predicate WorkerEnabled(s: State) {
    s.job.Active? && !s.job.at.Returned? && !s.job.at.Thrown?
  }

  function At(s: State, at: Worker): State
    requires s.job.Active?
  {
    s.(job := s.job.(at := at))
  }

  function BeforeSend(config: Config): Worker {
    if config.attachment then Download else Send
  }

  function WorkerStep(s: State, ok: bool): State
    requires WorkerEnabled(s)
  {
    match s.job.at
    case Find =>
      if !ok then At(s, Thrown)
      else if s.notification.None? || Terminal(s.notification.value) then At(s, Skip)
      else if s.job.made == 0 then At(s, MarkRunning)
      else At(s, BeforeSend(s.config))
    case Skip =>
      if ok then At(s.(row := WriteJobStatus(s.row, Completed), log := s.log.(stale := false)), Returned)
      else At(s.(log := LoseWrite(s.log)), Thrown)
    case MarkRunning =>
      if ok then At(s.(row := WriteJobStatus(s.row, Running)), BeforeSend(s.config))
      else At(s.(log := LoseWrite(s.log)), Thrown)
    case Download =>
      At(s, if ok then Send else Thrown)
    case Send =>
      if ok then At(s.(log := s.log.(sends := s.log.sends + 1)), MarkSent) else At(s, Thrown)
    case MarkSent =>
      if ok then At(s.(notification := WriteStatus(s.notification, Sent),
                       log := s.log.(sentMarks := s.log.sentMarks + 1)), Returned)
      else At(s.(log := LoseWrite(s.log).(failedSentMarks := s.log.failedSentMarks + 1)), Thrown)
  }

  // ---- Queue ----

  function Fetch(s: State): State
    requires s.job.Waiting?
  {
    s.(job := Active(s.job.made, Find), log := s.log.(runs := s.log.runs + 1))
  }

  predicate SettleEnabled(s: State) {
    s.job.Active? && (s.job.at.Returned? || s.job.at.Thrown?)
  }

  /** The queue records the outcome of a run and emits `completed` or `failed`. The failed
      handler decides at once, from attemptsMade, which of its two branches it takes. */
  function Settle(s: State): State
    requires SettleEnabled(s)
  {
    if s.job.at.Returned? then
      s.(job := Finished(s.job.made, true), handlers := s.handlers + [CompleteJob])
    else
      var made := s.job.made + 1;
      var final := WorkerSaysFinal(s.config.attempts, made);
      s.(job := if RetriesAgain(s.config.attempts, made) then Waiting(made) else Finished(made, false),
         handlers := s.handlers + [if final then FailRow else BumpRetry],
         log := if final then s.log.(finals := s.log.finals + [made])
                else s.log.(retries := s.log.retries + 1))
  }

  /** The worker process dies inside `process`; the queue hands the job out again. */
  function Die(s: State): State
    requires s.job.Active? && s.redeliveries > 0
  {
    s.(job := Waiting(s.job.made), redeliveries := s.redeliveries - 1,
       log := s.log.(deaths := s.log.deaths + 1,
                     deathsAfterSend := s.log.deathsAfterSend + if s.job.at.MarkSent? then 1 else 0))
  }

  // ---- Event handlers ----

  function HandlerStep(s: State, i: nat, ok: bool): State
    requires i < |s.handlers| && !s.handlers[i].Handled?
  {
    var h := s.handlers[i];
    if !ok then
      s.(handlers := s.handlers[i := Handled],
         log := LoseWrite(s.log).(lostBumps := s.log.lostBumps + if h.BumpRetry? then 1 else 0))
    else
      match h
      case CompleteJob =>
        s.(row := WriteJobStatus(s.row, Completed), handlers := s.handlers[i := Handled],
           log := s.log.(completedMark := true, stale := false))
      case BumpRetry =>
        s.(row := IncrementRetries(s.row), handlers := s.handlers[i := SetRetrying])
      case SetRetrying =>
        s.(row := WriteJobStatus(s.row, Retrying), handlers := s.handlers[i := Handled],
           log := s.log.(stale := s.log.stale || (s.row.Some? && TerminalJob(s.row.value.status))))
      case FailRow =>
        s.(notification := WriteStatus(s.notification, Failed), handlers := s.handlers[i := FailJob],
           log := s.log.(failedMarks := s.log.failedMarks + 1))
      case FailJob =>
        s.(row := WriteJobStatus(s.row, JobFailed), handlers := s.handlers[i := Handled],
           log := s.log.(jobFailedMark := true, stale := false))
  }

  // ---- Runs ----

  datatype Action = Produce(ok: bool) | Take | Work(ok: bool) | Conclude | Perish | Handle(i: nat, ok: bool)

  predicate Enabled(s: State, a: Action) {
    match a
    case Produce(_) => ProducerEnabled(s)
    case Take => s.job.Waiting?
    case Work(_) => WorkerEnabled(s)
    case Conclude => SettleEnabled(s)
    case Perish => s.job.Active? && s.redeliveries > 0
    case Handle(i, _) => i < |s.handlers| && !s.handlers[i].Handled?
  }

  function Next(s: State, a: Action): State
    requires Enabled(s, a)
  {
    match a
    case Produce(ok) => ProducerStep(s, ok)
    case Take => Fetch(s)
    case Work(ok) => WorkerStep(s, ok)
    case Conclude => Settle(s)
    case Perish => Die(s)
    case Handle(i, ok) => HandlerStep(s, i, ok)
  }

  /** `run` can be taken from `s`, one enabled action after the other. */
  predicate Legal(s: State, run: seq<Action>)
    decreases |run|
  {
    run == [] || (Enabled(s, run[0]) && Legal(Next(s, run[0]), run[1..]))
  }

  function Exec(s: State, run: seq<Action>): State
    requires Legal(s, run)
    decreases |run|
  {
    if run == [] then s else Exec(Next(s, run[0]), run[1..])
  }

  predicate Quiescent(s: State) {
    && !ProducerEnabled(s)
    && (s.job.NoJob? || s.job.Finished?)
    && forall i :: 0 <= i < |s.handlers| ==> s.handlers[i].Handled?
  }

  /** Runs compose. */
  lemma {:induction false} ExecAppend(s: State, run: seq<Action>, more: seq<Action>)
    requires Legal(s, run) && Legal(Exec(s, run), more)
    ensures Legal(s, run + more) && Exec(s, run + more) == Exec(Exec(s, run), more)
    decreases |run|
  {
    if run == [] {
      assert run + more == more;
    } else {
      ExecAppend(Next(s, run[0]), run[1..], more);
      assert (run + more)[1..] == run[1..] + more;
    }
  }

  /** Every prefix of a run is a run, and the whole run goes on from it. */
  lemma {:induction false} ExecPrefix(s: State, run: seq<Action>, k: nat)
    requires Legal(s, run) && k <= |run|
    ensures Legal(s, run[..k]) && Legal(Exec(s, run[..k]), run[k..])
    ensures Exec(Exec(s, run[..k]), run[k..]) == Exec(s, run)
    decreases |run|
  {
    if k == 0 {
      assert run[..0] == [] && run[0..] == run;
    } else {
      ExecPrefix(Next(s, run[0]), run[1..], k - 1);
      assert run[..k][1..] == run[1..][..k - 1] && run[k..] == run[1..][k - 1..];
    }
  }

  /** One more step. */
  lemma Extend(start: State, run: seq<Action>, a: Action) returns (longer: seq<Action>)
    requires Legal(start, run) && Enabled(Exec(start, run), a)
    ensures Legal(start, longer) && Exec(start, longer) == Next(Exec(start, run), a)
  {
    var s := Exec(start, run);
    assert [a][1..] == [] && Legal(s, [a]) && Exec(s, [a]) == Next(s, a);
    ExecAppend(start, run, [a]);
    longer := run + [a];
  }
}
