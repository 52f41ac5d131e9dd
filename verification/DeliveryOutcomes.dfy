/** What the log says about both ledger rows, at every point of every run. */
module DeliveryOutcomes {
  import opened Options
  import opened DeliveryProtocol
  import opened DeliverySafety

  // ---- More of the invariant: the rows hold what the last effective write put there ----

  /** The notification row, as the log explains it. QUEUED over FAILED is the last write there
      can be; FAILED comes last otherwise; QUEUED over SENT is followed by at most one SENT. */
  function ExplainedStatus(log: Log): DeliveryStatus {
    if log.lateOverFailed then Queued
    else if log.failedMarks > 0 then Failed
    else if log.sentMarks > (if log.late then 1 else 0) then Sent
    else if log.queuedMark then Queued
    else Draft
  }

  ghost predicate StatusExplained(s: State) {
    && (!s.job.NoJob? ==> s.notification == Some(ExplainedStatus(s.log)))
    && (s.log.lateOverFailed ==> s.log.late && s.log.failedMarks > 0)
    && (s.log.late && !s.log.lateOverFailed ==> s.log.sentMarks > 0)
  }

  /** The guard's way out, and a run that returns, come after a SENT write. */
  ghost predicate Marked(s: State) {
    || (s.job.Active? && (s.job.at.Skip? || s.job.at.Returned?))
    || (s.job.Finished? && s.job.success)
    ==> s.log.sentMarks > 0
  }

  /** While no worker dies: the guard's way out is never taken and a SENT write ends the job. */
  ghost predicate Calm(s: State) {
    s.log.deaths == 0 && !s.job.NoJob? ==>
      && !(s.job.Active? && s.job.at.Skip?)
      && s.log.sentMarks <= 1
      && (s.log.sentMarks > 0 ==> (s.job.Active? && s.job.at.Returned?) || (s.job.Finished? && s.job.success))
  }

  /** The background-job row, once a handler has written its outcome. */
  ghost predicate RowExplained(s: State) {
    !s.job.NoJob? ==>
      && s.row.Some?
      && (s.job.Active? && s.job.at.MarkRunning? ==> s.job.made == 0)
      && (s.log.stale ==> s.row.value.status == Retrying && (s.job.Finished? || s.job.made > 0))
      && (!s.log.stale && s.log.completedMark ==> s.row.value.status == Completed)
      && (!s.log.stale && s.log.jobFailedMark ==> s.row.value.status == JobFailed)
  }

  /** A terminal handler is still on its way, or has written, or a write was lost. */
  ghost predicate Accounted(s: State) {
    && (s.job.Finished? && s.job.success && |s.handlers| > s.job.made ==>
          s.handlers[s.job.made].CompleteJob? || s.log.completedMark || s.log.lostWrites > 0)
    && (s.job.Finished? && !s.job.success && s.log.finals != [] && 0 < s.job.made <= |s.handlers| ==>
          match s.handlers[s.job.made - 1]
          case FailRow => true
          case FailJob => s.log.failedMarks > 0
          case _ => (s.log.failedMarks > 0 && s.log.jobFailedMark) || s.log.lostWrites > 0)
  }

  /** A job that failed with no final event: its one handler leaves RETRYING. */
  ghost predicate StrandedAccounted(s: State) {
    s.job.Finished? && !s.job.success && s.log.finals == [] && |s.handlers| == 1 ==>
      match s.handlers[0]
      case BumpRetry => true
      case SetRetrying => true
      case _ => (s.row.Some? && s.row.value.status == Retrying) || s.log.lostWrites > 0
  }

  function PendingBumps(handlers: seq<Handler>): nat {
    if handlers == [] then 0
    else PendingBumps(handlers[..|handlers| - 1]) + if handlers[|handlers| - 1].BumpRetry? then 1 else 0
  }

  lemma {:induction false} PendingBumpsUpdate(handlers: seq<Handler>, i: nat, h: Handler)
    requires i < |handlers|
    ensures PendingBumps(handlers[i := h]) + (if handlers[i].BumpRetry? then 1 else 0)
         == PendingBumps(handlers) + if h.BumpRetry? then 1 else 0
  {
    var last := |handlers| - 1;
    if i < last {
      PendingBumpsUpdate(handlers[..last], i, h);
      assert handlers[i := h][..last] == handlers[..last][i := h];
    } else {
      assert handlers[i := h][..last] == handlers[..last];
    }
  }

  lemma {:induction false} NoPendingBumps(handlers: seq<Handler>)
    requires forall i :: 0 <= i < |handlers| ==> !handlers[i].BumpRetry?
    ensures PendingBumps(handlers) == 0
  {
    if handlers != [] {
      NoPendingBumps(handlers[..|handlers| - 1]);
    }
  }

  /** Every retry the handlers decided on is counted in the row, pending, or lost. */
  ghost predicate RetriesCounted(s: State) {
    && s.log.lostBumps <= s.log.lostWrites
    && (s.row.Some? ==> s.row.value.retryCount + PendingBumps(s.handlers) + s.log.lostBumps == s.log.retries)
  }

  ghost predicate Explained(s: State) {
    && Inv(s) && StatusExplained(s) && Marked(s) && Calm(s)
    && RowExplained(s) && Accounted(s) && StrandedAccounted(s) && RetriesCounted(s)
  }

  // ---- The notification row ----

  lemma ProducerKeepsStatusExplained(s: State, ok: bool)
    requires Shape(s) && Sending(s) && StatusExplained(s) && ProducerEnabled(s)
    ensures StatusExplained(ProducerStep(s, ok))
  {}

  lemma WorkerKeepsStatusExplained(s: State, ok: bool)
    requires Shape(s) && Finality(s) && Sending(s) && StatusExplained(s) && WorkerEnabled(s)
    ensures StatusExplained(WorkerStep(s, ok))
  {
    assert s.log.finals == [];
  }

  lemma HandlerKeepsStatusExplained(s: State, i: nat, ok: bool)
    requires Shape(s) && Finality(s) && StatusExplained(s) && i < |s.handlers| && !s.handlers[i].Handled?
    ensures StatusExplained(HandlerStep(s, i, ok))
  {}

  lemma StepKeepsStatusExplained(s: State, a: Action)
    requires Inv(s) && StatusExplained(s) && Enabled(s, a)
    ensures StatusExplained(Next(s, a))
  {
    match a
    case Produce(ok) => ProducerKeepsStatusExplained(s, ok);
    case Take =>
    case Work(ok) => WorkerKeepsStatusExplained(s, ok);
    case Conclude =>
    case Perish =>
    case Handle(i, ok) => HandlerKeepsStatusExplained(s, i, ok);
  }

  lemma WorkerKeepsMarked(s: State, ok: bool)
    requires Finality(s) && StatusExplained(s) && Marked(s) && WorkerEnabled(s)
    ensures Marked(WorkerStep(s, ok))
  {
    assert s.log.finals == [];
  }

  lemma StepKeepsMarked(s: State, a: Action)
    requires Inv(s) && StatusExplained(s) && Marked(s) && Enabled(s, a)
    ensures Marked(Next(s, a))
  {
    match a
    case Produce(ok) =>
    case Take =>
    case Work(ok) => WorkerKeepsMarked(s, ok);
    case Conclude =>
    case Perish =>
    case Handle(i, ok) =>
  }

  lemma WorkerKeepsCalm(s: State, ok: bool)
    requires Finality(s) && Sending(s) && StatusExplained(s) && Calm(s) && WorkerEnabled(s)
    ensures Calm(WorkerStep(s, ok))
  {
    assert s.log.finals == [];
  }

  lemma ProducerKeepsCalm(s: State, ok: bool)
    requires Shape(s) && Calm(s) && ProducerEnabled(s)
    ensures Calm(ProducerStep(s, ok))
  {}

  lemma HandlerKeepsCalm(s: State, i: nat, ok: bool)
    requires Calm(s) && i < |s.handlers| && !s.handlers[i].Handled?
    ensures Calm(HandlerStep(s, i, ok))
  {}

  lemma StepKeepsCalm(s: State, a: Action)
    requires Inv(s) && StatusExplained(s) && Calm(s) && Enabled(s, a)
    ensures Calm(Next(s, a))
  {
    match a
    case Produce(ok) => ProducerKeepsCalm(s, ok);
    case Take =>
    case Work(ok) => WorkerKeepsCalm(s, ok);
    case Conclude =>
    case Perish =>
    case Handle(i, ok) => HandlerKeepsCalm(s, i, ok);
  }

  // ---- The background-job row ----

  lemma ProducerKeepsRowExplained(s: State, ok: bool)
    requires Shape(s) && RowExplained(s) && ProducerEnabled(s)
    ensures RowExplained(ProducerStep(s, ok))
  {}

  lemma WorkerKeepsRowExplained(s: State, ok: bool)
    requires Finality(s) && RowExplained(s) && WorkerEnabled(s)
    ensures RowExplained(WorkerStep(s, ok))
  {}

  lemma SettleKeepsRowExplained(s: State)
    requires RowExplained(s) && SettleEnabled(s)
    ensures RowExplained(Settle(s))
  {}

  lemma HandlerKeepsRowExplained(s: State, i: nat, ok: bool)
    requires Counting(s) && Finality(s) && RowExplained(s) && i < |s.handlers| && !s.handlers[i].Handled?
    ensures RowExplained(HandlerStep(s, i, ok))
  {}

  lemma StepKeepsRowExplained(s: State, a: Action)
    requires Inv(s) && RowExplained(s) && Enabled(s, a)
    ensures RowExplained(Next(s, a))
  {
    match a
    case Produce(ok) => ProducerKeepsRowExplained(s, ok);
    case Take =>
    case Work(ok) => WorkerKeepsRowExplained(s, ok);
    case Conclude => SettleKeepsRowExplained(s);
    case Perish =>
    case Handle(i, ok) => HandlerKeepsRowExplained(s, i, ok);
  }

  lemma WorkerKeepsAccounted(s: State, ok: bool)
    requires Accounted(s) && WorkerEnabled(s)
    ensures Accounted(WorkerStep(s, ok))
  {
    match s.job.at
    case Find =>
    case Skip =>
    case MarkRunning =>
    case Download =>
    case Send =>
    case MarkSent =>
  }

  lemma ProducerKeepsAccounted(s: State, ok: bool)
    requires Accounted(s) && ProducerEnabled(s)
    ensures Accounted(ProducerStep(s, ok))
  {
    match s.producer
    case CreateRow =>
    case CreateJob =>
    case AddJob =>
    case MarkQueued =>
    case MarkRowFailed =>
    case MarkJobFailed =>
  }

  lemma SettleKeepsAccounted(s: State)
    requires Counting(s) && Finality(s) && Accounted(s) && SettleEnabled(s)
    ensures Accounted(Settle(s))
  {}

  lemma HandlerKeepsAccounted(s: State, i: nat, ok: bool)
    requires Finality(s) && Accounted(s) && i < |s.handlers| && !s.handlers[i].Handled?
    ensures Accounted(HandlerStep(s, i, ok))
  {}

  lemma StepKeepsAccounted(s: State, a: Action)
    requires Counting(s) && Finality(s) && Accounted(s) && Enabled(s, a)
    ensures Accounted(Next(s, a))
  {
    match a
    case Produce(ok) => ProducerKeepsAccounted(s, ok);
    case Take =>
    case Work(ok) => WorkerKeepsAccounted(s, ok);
    case Conclude => SettleKeepsAccounted(s);
    case Perish =>
    case Handle(i, ok) => HandlerKeepsAccounted(s, i, ok);
  }

  lemma SettleKeepsStranded(s: State)
    requires Counting(s) && Finality(s) && SettleEnabled(s)
    ensures StrandedAccounted(Settle(s))
  {}

  lemma HandlerKeepsStranded(s: State, i: nat, ok: bool)
    requires Shape(s) && Finality(s) && StrandedAccounted(s) && i < |s.handlers| && !s.handlers[i].Handled?
    ensures StrandedAccounted(HandlerStep(s, i, ok))
  {}

  lemma StepKeepsStranded(s: State, a: Action)
    requires Inv(s) && StrandedAccounted(s) && Enabled(s, a)
    ensures StrandedAccounted(Next(s, a))
  {
    match a
    case Produce(ok) =>
    case Take =>
    case Work(ok) =>
    case Conclude => SettleKeepsStranded(s);
    case Perish =>
    case Handle(i, ok) => HandlerKeepsStranded(s, i, ok);
  }

  lemma HandlerKeepsRetriesCounted(s: State, i: nat, ok: bool)
    requires RetriesCounted(s) && i < |s.handlers| && !s.handlers[i].Handled?
    ensures RetriesCounted(HandlerStep(s, i, ok))
  {
    PendingBumpsUpdate(s.handlers, i, HandlerStep(s, i, ok).handlers[i]);
    match s.handlers[i]
    case CompleteJob =>
    case BumpRetry =>
    case SetRetrying =>
    case FailRow =>
    case FailJob =>
  }

  lemma ProducerKeepsRetriesCounted(s: State, ok: bool)
    requires Shape(s) && RetriesCounted(s) && ProducerEnabled(s)
    ensures RetriesCounted(ProducerStep(s, ok))
  {
    assert ProducerStep(s, ok).handlers == s.handlers;
  }

  lemma WorkerLeavesRetries(s: State, ok: bool)
    requires WorkerEnabled(s)
    ensures var t := WorkerStep(s, ok);
      && t.handlers == s.handlers && t.log.retries == s.log.retries
      && t.log.lostBumps == s.log.lostBumps && t.log.lostWrites >= s.log.lostWrites
      && t.row.Some? == s.row.Some?
      && (s.row.Some? ==> t.row.value.retryCount == s.row.value.retryCount)
  {}

  lemma SettleKeepsRetriesCounted(s: State)
    requires RetriesCounted(s) && SettleEnabled(s)
    ensures RetriesCounted(Settle(s))
  {
    assert Settle(s).handlers[..|s.handlers|] == s.handlers;
  }

  lemma StepKeepsRetriesCounted(s: State, a: Action)
    requires Shape(s) && RetriesCounted(s) && Enabled(s, a)
    ensures RetriesCounted(Next(s, a))
  {
    match a
    case Produce(ok) => ProducerKeepsRetriesCounted(s, ok);
    case Take =>
    case Work(ok) => WorkerLeavesRetries(s, ok);
    case Conclude => SettleKeepsRetriesCounted(s);
    case Perish =>
    case Handle(i, ok) => HandlerKeepsRetriesCounted(s, i, ok);
  }

  lemma StepKeepsExplained(s: State, a: Action)
    requires Explained(s) && Enabled(s, a)
    ensures Explained(Next(s, a))
  {
    StepKeepsInv(s, a);
    StepKeepsStatusExplained(s, a);
    StepKeepsMarked(s, a);
    StepKeepsCalm(s, a);
    StepKeepsRowExplained(s, a);
    StepKeepsAccounted(s, a);
    StepKeepsStranded(s, a);
    StepKeepsRetriesCounted(s, a);
  }

  lemma {:induction false} RunKeepsExplained(s: State, run: seq<Action>)
    requires Explained(s) && Legal(s, run)
    ensures Explained(Exec(s, run))
    decreases |run|
  {
    if run != [] {
      var a := run[0];
      StepKeepsExplained(s, a);
      RunKeepsExplained(Next(s, a), run[1..]);
    }
  }
}
