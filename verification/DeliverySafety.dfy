/** What every run keeps, whatever fails and however the steps interleave. */
module DeliverySafety {
  import opened Options
  import opened JobQueue
  import opened DeliveryProtocol

  // ---- The invariant, one concern at a time ----

  /** Until the job is added, the rows are what the producer made of them. */
  ghost predicate BeforeJob(s: State) {
    && (s.producer.CreateRow? ==> s.notification.None? && s.row.None?)
    && (s.producer.CreateJob? ==> s.row.None?)
    && (s.producer.CreateJob? || s.producer.AddJob? || s.producer.MarkRowFailed? ==> s.notification == Some(Draft))
    && (s.producer.AddJob? || s.producer.MarkRowFailed? || s.producer.MarkJobFailed? ==>
          s.row == Some(JobRow(JobQueued, 0)))
    && (s.producer.MarkJobFailed? ==> s.notification == Some(Failed))
    && s.handlers == []
    && s.log.(lostWrites := 0) == EMPTY_LOG
    && !s.producer.MarkQueued?
    && (s.producer.Done? ==> s.notification == Some(Failed) && s.row == Some(JobRow(JobFailed, 0)))
    && (s.producer.Aborted? ==> s.log.lostWrites > 0)
  }

  /** From then on both rows exist, and only the producer's QUEUED may be outstanding. */
  ghost predicate WithJob(s: State) {
    && (s.producer.MarkQueued? || s.producer.Done? || s.producer.Aborted?)
    && s.notification.Some? && !s.notification.value.Cancelled?
    && s.row.Some?
    && (s.log.queuedMark <==> s.producer.Done?)
    && (s.log.late ==> s.log.queuedMark)
    && (s.producer.Aborted? ==> s.log.lostWrites > 0)
  }

  ghost predicate Shape(s: State) {
    if s.job.NoJob? then BeforeJob(s) else WithJob(s)
  }

  /** attemptsMade, process starts and failed events agree. */
  ghost predicate Counting(s: State) {
    match s.job
    case NoJob => true
    case Waiting(made) =>
      && (made == 0 || RetriesAgain(s.config.attempts, made))
      && s.log.runs == made + s.log.deaths
      && |s.handlers| == made
    case Active(made, _) =>
      && (made == 0 || RetriesAgain(s.config.attempts, made))
      && s.log.runs == made + 1 + s.log.deaths
      && |s.handlers| == made
    case Finished(made, success) =>
      if success then
        && (made == 0 || RetriesAgain(s.config.attempts, made))
        && s.log.runs == made + 1 + s.log.deaths
        && |s.handlers| == made + 1
      else
        && FailureHappens(s.config.attempts, made) && !RetriesAgain(s.config.attempts, made)
        && s.log.runs == made + s.log.deaths
        && |s.handlers| == made
  }

  ghost predicate FailingHandler(h: Handler) {
    h.FailRow? || h.FailJob?
  }

  /** The branch that writes FAILED belongs to the last failed event and to no other. */
  ghost predicate Finality(s: State) {
    && (forall i :: 0 <= i < |s.handlers| && FailingHandler(s.handlers[i]) ==>
          s.job.Finished? && !s.job.success && s.log.finals == [s.job.made] && i == s.job.made - 1)
    && (forall i :: 0 <= i < |s.handlers| && s.handlers[i].CompleteJob? ==>
          s.job.Finished? && s.job.success && i == s.job.made)
    && (s.log.finals != [] ==> s.job.Finished? && !s.job.success && s.log.finals == [s.job.made])
    && (s.job.Finished? && !s.job.success ==>
          (s.log.finals == [s.job.made] <==> FallbackIsHarmless(s.config.attempts)))
    && (!s.job.NoJob? ==> s.log.retries + |s.log.finals| == s.job.made)
    && s.log.failedMarks <= |s.log.finals|
    && (forall i :: 0 <= i < |s.handlers| && s.handlers[i].FailRow? ==> s.log.failedMarks == 0)
    && (s.log.completedMark ==> s.job.Finished? && s.job.success)
    && (s.log.jobFailedMark ==> s.log.finals != [])
  }

  /** The run in progress is past the status guard and will send, or has sent. */
  ghost predicate PastGuard(job: Job) {
    job.Active? && (job.at.MarkRunning? || job.at.Download? || job.at.Send? || job.at.MarkSent?)
  }

  /** FAILED and SENT rows are explained by the log; a row that was marked SENT is read as
      SENT by every later run, unless the producer's QUEUED came late. */
  ghost predicate Sending(s: State) {
    && (!s.job.NoJob? && s.notification == Some(Failed) ==> s.log.failedMarks > 0)
    && (s.notification == Some(Sent) ==> s.log.sentMarks > 0)
    && s.log.sends == s.log.sentMarks + s.log.failedSentMarks + s.log.deathsAfterSend
                      + (if s.job.Active? && s.job.at.MarkSent? then 1 else 0)
    && s.log.sentMarks <= (if s.log.late then 2 else 1)
    && (s.log.sentMarks > 0 && !s.job.Finished? ==>
          || (s.notification == Some(Sent) && !PastGuard(s.job))
          || (s.notification == Some(Queued) && s.log.late && s.log.sentMarks == 1))
    && (s.log.late ==> s.log.sentMarks > 0 || s.log.failedMarks > 0)
    && s.log.deathsAfterSend <= s.log.deaths
    && s.log.failedSentMarks <= s.log.lostWrites
  }

  ghost predicate Inv(s: State) {
    Shape(s) && Counting(s) && Finality(s) && Sending(s)
  }

  lemma InitInv(config: Config, redeliveries: nat)
    ensures Inv(Init(config, redeliveries))
  {}

  lemma ProducerKeepsShape(s: State, ok: bool)
    requires Shape(s) && Counting(s) && Sending(s) && ProducerEnabled(s)
    ensures Shape(ProducerStep(s, ok))
  {}

  lemma ProducerKeepsCounting(s: State, ok: bool)
    requires Shape(s) && Counting(s) && ProducerEnabled(s)
    ensures Counting(ProducerStep(s, ok))
  {}

  lemma ProducerKeepsFinality(s: State, ok: bool)
    requires Shape(s) && Finality(s) && ProducerEnabled(s)
    ensures Finality(ProducerStep(s, ok))
  {
    assert ProducerStep(s, ok).handlers == s.handlers;
  }

  lemma ProducerKeepsSending(s: State, ok: bool)
    requires Shape(s) && Sending(s) && ProducerEnabled(s)
    ensures Sending(ProducerStep(s, ok))
  {}

  lemma WorkerKeepsShape(s: State, ok: bool)
    requires Shape(s) && WorkerEnabled(s)
    ensures Shape(WorkerStep(s, ok))
  {}

  lemma WorkerKeepsCounting(s: State, ok: bool)
    requires Counting(s) && WorkerEnabled(s)
    ensures Counting(WorkerStep(s, ok))
  {}

  lemma WorkerKeepsFinality(s: State, ok: bool)
    requires Finality(s) && WorkerEnabled(s)
    ensures Finality(WorkerStep(s, ok))
  {
    assert WorkerStep(s, ok).handlers == s.handlers;
  }

  lemma WorkerKeepsSending(s: State, ok: bool)
    requires Shape(s) && Sending(s) && WorkerEnabled(s)
    ensures Sending(WorkerStep(s, ok))
  {
    match s.job.at
    case Find =>
    case Skip =>
    case MarkRunning =>
    case Download =>
    case Send =>
    case MarkSent =>
  }

  lemma SettleKeepsShape(s: State)
    requires Shape(s) && SettleEnabled(s)
    ensures Shape(Settle(s))
  {}

  lemma SettleKeepsSending(s: State)
    requires Sending(s) && SettleEnabled(s)
    ensures Sending(Settle(s))
  {}

  lemma SettleKeepsCounting(s: State)
    requires Counting(s) && SettleEnabled(s)
    ensures Counting(Settle(s))
  {
    FinalityAgreesWithQueue(s.config.attempts);
  }

  lemma SettleKeepsFinality(s: State)
    requires Counting(s) && Finality(s) && SettleEnabled(s)
    ensures Finality(Settle(s))
  {
    FinalityAgreesWithQueue(s.config.attempts);
  }

  lemma HandlerKeepsShape(s: State, i: nat, ok: bool)
    requires Shape(s) && i < |s.handlers| && !s.handlers[i].Handled?
    ensures Shape(HandlerStep(s, i, ok))
  {
    assert !s.job.NoJob?;
    match s.handlers[i]
    case CompleteJob =>
    case BumpRetry =>
    case SetRetrying =>
    case FailRow =>
    case FailJob =>
  }

  lemma HandlerKeepsCounting(s: State, i: nat, ok: bool)
    requires Counting(s) && i < |s.handlers| && !s.handlers[i].Handled?
    ensures Counting(HandlerStep(s, i, ok))
  {}

  lemma HandlerKeepsFinality(s: State, i: nat, ok: bool)
    requires Finality(s) && i < |s.handlers| && !s.handlers[i].Handled?
    ensures Finality(HandlerStep(s, i, ok))
  {
    match s.handlers[i]
    case CompleteJob =>
    case BumpRetry =>
    case SetRetrying =>
    case FailRow =>
    case FailJob =>
  }

  lemma HandlerKeepsSending(s: State, i: nat, ok: bool)
    requires Shape(s) && Finality(s) && Sending(s) && i < |s.handlers| && !s.handlers[i].Handled?
    ensures Sending(HandlerStep(s, i, ok))
  {
    match s.handlers[i]
    case CompleteJob =>
    case BumpRetry =>
    case SetRetrying =>
    case FailRow =>
    case FailJob =>
  }

  lemma StepKeepsInv(s: State, a: Action)
    requires Inv(s) && Enabled(s, a)
    ensures Inv(Next(s, a))
  {
    match a
    case Produce(ok) =>
      ProducerKeepsShape(s, ok);
      ProducerKeepsCounting(s, ok);
      ProducerKeepsFinality(s, ok);
      ProducerKeepsSending(s, ok);
    case Take =>
    case Work(ok) =>
      WorkerKeepsShape(s, ok);
      WorkerKeepsCounting(s, ok);
      WorkerKeepsFinality(s, ok);
      WorkerKeepsSending(s, ok);
    case Conclude =>
      SettleKeepsShape(s);
      SettleKeepsSending(s);
      SettleKeepsCounting(s);
      SettleKeepsFinality(s);
    case Perish =>
    case Handle(i, ok) =>
      HandlerKeepsShape(s, i, ok);
      HandlerKeepsCounting(s, i, ok);
      HandlerKeepsFinality(s, i, ok);
      HandlerKeepsSending(s, i, ok);
  }

  lemma {:induction false} RunKeepsInv(s: State, run: seq<Action>)
    requires Inv(s) && Legal(s, run)
    ensures Inv(Exec(s, run))
    decreases |run|
  {
    if run != [] {
      StepKeepsInv(s, run[0]);
      RunKeepsInv(Next(s, run[0]), run[1..]);
    }
  }
}
