/** The delivery guarantees, over all runs from an empty ledger. */
module DeliveryTheorems {
  import opened Options
  import opened JobQueue
  import opened DeliveryProtocol
  import opened DeliverySafety
  import opened DeliveryOutcomes

  lemma WorkerSparesRedeliveries(s: State, ok: bool)
    requires WorkerEnabled(s)
    ensures var t := WorkerStep(s, ok);
      && t.log.deaths == s.log.deaths && t.redeliveries == s.redeliveries && t.config == s.config
      && t.log.late == s.log.late
    ensures s.log.sends <= WorkerStep(s, ok).log.sends <= s.log.sends + 1
  {
    match s.job.at
    case Find =>
    case Skip =>
    case MarkRunning =>
    case Download =>
    case Send =>
    case MarkSent =>
  }

  lemma ProducerSparesRedeliveries(s: State, ok: bool)
    requires ProducerEnabled(s)
    ensures var t := ProducerStep(s, ok);
      && t.log.deaths == s.log.deaths && t.redeliveries == s.redeliveries && t.config == s.config
      && t.log.sends == s.log.sends && t.log.sentMarks == s.log.sentMarks
  {
    match s.producer
    case CreateRow =>
    case CreateJob =>
    case AddJob =>
    case MarkQueued =>
    case MarkRowFailed =>
    case MarkJobFailed =>
  }

  lemma HandlerSparesRedeliveries(s: State, i: nat, ok: bool)
    requires i < |s.handlers| && !s.handlers[i].Handled?
    ensures var t := HandlerStep(s, i, ok);
      && t.log.deaths == s.log.deaths && t.redeliveries == s.redeliveries && t.config == s.config
      && t.log.sends == s.log.sends && t.log.sentMarks == s.log.sentMarks
  {
    match s.handlers[i]
    case CompleteJob =>
    case BumpRetry =>
    case SetRetrying =>
    case FailRow =>
    case FailJob =>
  }

  /** A worker death spends a redelivery, nothing else does; a step sends at most one mail. */
  lemma StepSpendsRedeliveries(s: State, a: Action)
    requires Enabled(s, a)
    ensures Next(s, a).log.deaths + Next(s, a).redeliveries == s.log.deaths + s.redeliveries
    ensures Next(s, a).config == s.config
    ensures Next(s, a).log.deaths >= s.log.deaths
    ensures s.log.sends <= Next(s, a).log.sends <= s.log.sends + 1
  {
    match a
    case Produce(ok) => ProducerSparesRedeliveries(s, ok);
    case Take =>
    case Work(ok) => WorkerSparesRedeliveries(s, ok);
    case Conclude =>
    case Perish =>
    case Handle(i, ok) => HandlerSparesRedeliveries(s, i, ok);
  }

  lemma {:induction false} DeathsSpendRedeliveries(s: State, run: seq<Action>)
    requires Legal(s, run)
    ensures Exec(s, run).log.deaths + Exec(s, run).redeliveries == s.log.deaths + s.redeliveries
    ensures Exec(s, run).config == s.config
    decreases |run|
  {
    if run != [] {
      StepSpendsRedeliveries(s, run[0]);
      DeathsSpendRedeliveries(Next(s, run[0]), run[1..]);
    }
  }

  lemma RunIsExplained(config: Config, redeliveries: nat, run: seq<Action>)
    requires Legal(Init(config, redeliveries), run)
    ensures Explained(Exec(Init(config, redeliveries), run))
    ensures Exec(Init(config, redeliveries), run).config == config
    ensures Exec(Init(config, redeliveries), run).log.deaths <= redeliveries
  {
    InitInv(config, redeliveries);
    RunKeepsExplained(Init(config, redeliveries), run);
    DeathsSpendRedeliveries(Init(config, redeliveries), run);
  }

  // ---- Duplicates ----

  /**
   * At any point of any run, with arbitrary failures: beyond the first, every successful send
   * is paid for by a SENT write that was lost (it failed, or the worker died before it), plus
   * at most one by the producer's QUEUED overwriting SENT. And `process` is started at most
   * once per attempt the queue grants, plus once per worker death.
   */
  lemma SendsAreBounded(config: Config, redeliveries: nat, run: seq<Action>)
    requires Legal(Init(config, redeliveries), run)
    ensures var log := Exec(Init(config, redeliveries), run).log;
      && log.sends <= 1 + log.failedSentMarks + log.deathsAfterSend + (if log.late then 1 else 0)
      && (log.deaths == 0 ==> log.sends <= 1 + log.failedSentMarks)
      && log.runs <= LastAttempt(config.attempts) + log.deaths
      && log.deaths <= redeliveries
  {
    RunIsExplained(config, redeliveries, run);
  }

  /** Two steps of one run: the state after `k` actions, and the rest of the run from there. */
  lemma SplitRun(config: Config, redeliveries: nat, run: seq<Action>, k: nat)
    requires Legal(Init(config, redeliveries), run) && k <= |run|
    ensures Legal(Init(config, redeliveries), run[..k])
    ensures var mid := Exec(Init(config, redeliveries), run[..k]);
      Explained(mid) && Legal(mid, run[k..])
      && Exec(mid, run[k..]) == Exec(Init(config, redeliveries), run)
  {
    ExecPrefix(Init(config, redeliveries), run, k);
    RunIsExplained(config, redeliveries, run[..k]);
  }

  lemma SentStepDoesNotSend(s: State, a: Action)
    requires Sending(s) && Enabled(s, a) && s.log.sentMarks > 0 && !s.log.late
    ensures Next(s, a).log.sends == s.log.sends && Next(s, a).log.sentMarks == s.log.sentMarks
  {
    match a
    case Produce(ok) => ProducerSparesRedeliveries(s, ok);
    case Take =>
    case Work(ok) =>
      assert !PastGuard(s.job);
    case Conclude =>
    case Perish =>
    case Handle(i, ok) => HandlerSparesRedeliveries(s, i, ok);
  }

  lemma {:induction false} NoSendOnceSent(s: State, run: seq<Action>)
    requires Explained(s) && Legal(s, run)
    requires s.log.sentMarks > 0 && !Exec(s, run).log.late
    ensures Exec(s, run).log.sends == s.log.sends
    decreases |run|
  {
    if run != [] {
      var t := Next(s, run[0]);
      if s.log.late {
        LateStays(s, run);
      }
      SentStepDoesNotSend(s, run[0]);
      StepKeepsExplained(s, run[0]);
      NoSendOnceSent(t, run[1..]);
    }
  }

  lemma LateStep(s: State, a: Action)
    requires Shape(s) && Enabled(s, a) && s.log.late
    ensures Next(s, a).log.late
  {
    assert !s.job.NoJob? && s.producer.Done?;
    match a
    case Work(ok) => WorkerSparesRedeliveries(s, ok);
    case Handle(i, ok) => HandlerSparesRedeliveries(s, i, ok);
    case _ =>
  }

  lemma {:induction false} LateStays(s: State, run: seq<Action>)
    requires Explained(s) && Legal(s, run) && s.log.late
    ensures Exec(s, run).log.late
    decreases |run|
  {
    if run != [] {
      LateStep(s, run[0]);
      StepKeepsExplained(s, run[0]);
      LateStays(Next(s, run[0]), run[1..]);
    }
  }

  /** What the status guard is for: from the moment the row reads SENT no later run of
      `process` sends again, however often the job is redelivered, unless QUEUED came late. */
  lemma GuardStopsSends(config: Config, redeliveries: nat, run: seq<Action>, k: nat)
    requires Legal(Init(config, redeliveries), run) && k <= |run|
    requires Legal(Init(config, redeliveries), run[..k])
    requires Exec(Init(config, redeliveries), run[..k]).notification == Some(Sent)
    requires !Exec(Init(config, redeliveries), run).log.late
    ensures Exec(Init(config, redeliveries), run).log.sends
         == Exec(Init(config, redeliveries), run[..k]).log.sends
  {
    SplitRun(config, redeliveries, run, k);
    NoSendOnceSent(Exec(Init(config, redeliveries), run[..k]), run[k..]);
  }

  // ---- Order of statuses ----

  function Rank(status: Option<DeliveryStatus>): nat {
    match status
    case None => 0
    case Some(Draft) => 1
    case Some(Queued) => 2
    case Some(_) => 3
  }

  /** Unchanged or further along; of two terminal statuses, at most FAILED over SENT. */
  predicate Forward(before: Option<DeliveryStatus>, after: Option<DeliveryStatus>, failedOverSent: bool) {
    || before == after
    || Rank(before) < Rank(after)
    || (failedOverSent && before == Some(Sent) && after == Some(Failed))
  }

  /** FAILED is written over SENT only by a final failed event of a job that a worker death
      brought back. */
  lemma HandlerMovesForward(s: State, i: nat, ok: bool)
    requires Shape(s) && Finality(s) && StatusExplained(s) && Calm(s) && i < |s.handlers| && !s.handlers[i].Handled?
    ensures Forward(s.notification, HandlerStep(s, i, ok).notification,
                    s.log.deaths > 0 && FallbackIsHarmless(s.config.attempts))
  {}

  lemma WorkerMovesForward(s: State, ok: bool)
    requires Shape(s) && Finality(s) && Sending(s) && WorkerEnabled(s)
    ensures Forward(s.notification, WorkerStep(s, ok).notification, false)
  {
    assert s.log.finals == [];
  }

  lemma ProducerMovesForward(s: State, ok: bool)
    requires Shape(s) && ProducerEnabled(s) && !ProducerStep(s, ok).log.late
    ensures Forward(s.notification, ProducerStep(s, ok).notification, false)
  {}

  lemma StepMovesForward(s: State, a: Action)
    requires Explained(s) && Enabled(s, a) && !Next(s, a).log.late
    ensures Forward(s.notification, Next(s, a).notification,
                    s.log.deaths > 0 && FallbackIsHarmless(s.config.attempts))
  {
    match a
    case Produce(ok) => ProducerMovesForward(s, ok);
    case Take =>
    case Work(ok) => WorkerMovesForward(s, ok);
    case Conclude =>
    case Perish =>
    case Handle(i, ok) => HandlerMovesForward(s, i, ok);
  }

  lemma {:induction false} RunMovesForward(s: State, run: seq<Action>)
    requires Explained(s) && Legal(s, run) && !Exec(s, run).log.late
    ensures Exec(s, run).log.deaths >= s.log.deaths
    ensures Forward(s.notification, Exec(s, run).notification,
                    Exec(s, run).log.deaths > 0 && FallbackIsHarmless(s.config.attempts))
    decreases |run|
  {
    if run != [] {
      var t := Next(s, run[0]);
      StepKeepsExplained(s, run[0]);
      StepSpendsRedeliveries(s, run[0]);
      if t.log.late {
        LateStays(t, run[1..]);
      }
      StepMovesForward(s, run[0]);
      RunMovesForward(t, run[1..]);
    }
  }

  /** Unless QUEUED is written late, the status only moves forward between any two points of any
      run: from DRAFT through QUEUED (possibly skipped) to SENT or FAILED. A terminal status
      stays, except that FAILED can replace SENT after a worker death; FAILED stays for good. */
  lemma StatusMovesForward(config: Config, redeliveries: nat, run: seq<Action>, more: seq<Action>)
    requires Legal(Init(config, redeliveries), run) && Legal(Exec(Init(config, redeliveries), run), more)
    requires !Exec(Exec(Init(config, redeliveries), run), more).log.late
    ensures var s := Exec(Init(config, redeliveries), run);
      var t := Exec(s, more);
      && Forward(s.notification, t.notification, t.log.deaths > 0 && FallbackIsHarmless(config.attempts))
      && (t.log.deaths == 0 && s.notification.Some? && Terminal(s.notification.value) ==>
            t.notification == s.notification)
      && (s.notification == Some(Failed) ==> t.notification == Some(Failed))
  {
    RunIsExplained(config, redeliveries, run);
    RunMovesForward(Exec(Init(config, redeliveries), run), more);
  }

  // ---- Failed calls ----

  /** Whatever call inside `process` fails, the download included, the attempt sends nothing more,
      leaves the notification row alone and ends in a failed event with its handler. */
  lemma FailedCallFailsAttempt(s: State)
    requires WorkerEnabled(s)
    ensures Legal(s, [Work(false), Conclude])
    ensures var t := Exec(s, [Work(false), Conclude]);
      && t.log.sends == s.log.sends && t.notification == s.notification && t.row == s.row
      && (t.job == Waiting(s.job.made + 1) || t.job == Finished(s.job.made + 1, false))
      && |t.handlers| == |s.handlers| + 1 && t.handlers[..|s.handlers|] == s.handlers
      && (t.handlers[|s.handlers|] == BumpRetry || t.handlers[|s.handlers|] == FailRow)
  {
    FailedCallThrows(s);
    ThrownFails(WorkerStep(s, false));
    assert [Work(false), Conclude][1..] == [Conclude] && [Conclude][1..] == [];
    var mid := Next(s, Work(false));
    assert Legal(mid, [Conclude]) && Exec(mid, [Conclude]) == Next(mid, Conclude);
  }

  lemma ThrownFails(s: State)
    requires s.job.Active? && s.job.at.Thrown?
    ensures var t := Settle(s);
      && t.log.sends == s.log.sends && t.notification == s.notification && t.row == s.row
      && (t.job == Waiting(s.job.made + 1) || t.job == Finished(s.job.made + 1, false))
      && (t.handlers == s.handlers + [BumpRetry] || t.handlers == s.handlers + [FailRow])
  {}

  lemma FailedCallThrows(s: State)
    requires WorkerEnabled(s)
    ensures var t := WorkerStep(s, false);
      && t.job == Active(s.job.made, Thrown) && t.handlers == s.handlers
      && t.log.sends == s.log.sends && t.notification == s.notification && t.row == s.row
  {
    match s.job.at
    case Find =>
    case Skip =>
    case MarkRunning =>
    case Download =>
    case Send =>
    case MarkSent =>
  }

  // ---- Final states ----

  /** When addJob throws: nothing is ever sent, and both rows read FAILED unless one of the two
      FAILED writes was itself lost. */
  lemma FailedEnqueueOutcome(config: Config, redeliveries: nat, run: seq<Action>)
    requires Legal(Init(config, redeliveries), run)
    requires Quiescent(Exec(Init(config, redeliveries), run))
    requires Exec(Init(config, redeliveries), run).job.NoJob?
    ensures var s := Exec(Init(config, redeliveries), run);
      && s.log.sends == 0 && s.log.runs == 0
      && (s.log.lostWrites == 0 ==> s.notification == Some(Failed) && s.row == Some(JobRow(JobFailed, 0)))
  {
    RunIsExplained(config, redeliveries, run);
  }

  /** The job always finishes; it fails exactly at the last granted attempt, and then one failed
      event, the last, is the final one, provided `attempts` is neither 0 nor undefined. With
      0 or undefined no event is ever final. */
  lemma LastFailureIsFinal(config: Config, redeliveries: nat, run: seq<Action>)
    requires Legal(Init(config, redeliveries), run)
    requires Quiescent(Exec(Init(config, redeliveries), run))
    requires !Exec(Init(config, redeliveries), run).job.NoJob?
    ensures var s := Exec(Init(config, redeliveries), run);
      && s.job.Finished?
      && s.log.retries + |s.log.finals| == s.job.made
      && (s.job.success ==> s.log.finals == [])
      && (!s.job.success ==>
            && s.job.made == LastAttempt(config.attempts)
            && s.log.finals == if FallbackIsHarmless(config.attempts) then [s.job.made] else [])
  {
    RunIsExplained(config, redeliveries, run);
  }

  /**
   * The notification row of an enqueued mail, at every point of every run, for every
   * interleaving and every pattern of failed calls and worker deaths: FAILED once the final
   * handler wrote it; else SENT once the worker did; else what the producer left. A late QUEUED
   * hides one SENT, or FAILED for good.
   */
  lemma NotificationOutcome(config: Config, redeliveries: nat, run: seq<Action>)
    requires Legal(Init(config, redeliveries), run)
    requires !Exec(Init(config, redeliveries), run).job.NoJob?
    ensures var s := Exec(Init(config, redeliveries), run);
      && s.notification == Some(ExplainedStatus(s.log))
      && (s.log.failedMarks > 0 ==> s.job.Finished? && !s.job.success && FallbackIsHarmless(config.attempts))
      && (s.job.Finished? && s.job.success ==> s.log.sentMarks > 0)
      && (s.notification == Some(Sent) ==> s.log.sends > 0)
  {
    RunIsExplained(config, redeliveries, run);
  }

  /** A run at rest whose job reached the queue and whose ledger writes all went through. */
  ghost predicate Lossless(config: Config, redeliveries: nat, run: seq<Action>) {
    && Legal(Init(config, redeliveries), run)
    && var s := Exec(Init(config, redeliveries), run);
       Quiescent(s) && s.job.Finished? && s.log.lostWrites == 0
  }

  /** What the handler of the job's last event writes into its row: RETRYING for good when
      `attempts` is 0 or undefined and so no failure is final. */
  function JobOutcome(attempts: Attempts, success: bool): JobStatus {
    if success then Completed else if FallbackIsHarmless(attempts) then JobFailed else Retrying
  }

  lemma HandlersAreDone(s: State)
    requires Explained(s) && Quiescent(s) && s.job.Finished? && s.log.lostWrites == 0
    ensures s.job.success ==> s.log.completedMark
    ensures !s.job.success && s.log.finals != [] ==> s.log.failedMarks > 0 && s.log.jobFailedMark
    ensures !s.job.success && s.log.finals == [] ==> s.row.Some? && s.row.value.status == Retrying
    ensures s.row.Some? && s.row.value.retryCount == s.log.retries
  {
    if s.job.success {
      assert s.handlers[s.job.made].Handled?;
    } else {
      assert s.handlers[s.job.made - 1].Handled?;
    }
    NoPendingBumps(s.handlers);
  }

  /**
   * Both rows at rest with no ledger write lost, worker deaths and any `attempts` included. The
   * job row tells how the job ended, unless a slow handler overwrote it with RETRYING; the retry
   * count is exact. Without a late QUEUED the notification tells how the job ended too.
   */
  lemma LosslessOutcome(config: Config, redeliveries: nat, run: seq<Action>)
    requires Lossless(config, redeliveries, run)
    ensures var s := Exec(Init(config, redeliveries), run);
      && (s.job.success ==> s.log.sends > 0)
      && s.log.sends == s.log.sentMarks + s.log.deathsAfterSend
      && s.notification == Some(ExplainedStatus(s.log))
      && (!s.log.late && FallbackIsHarmless(config.attempts) ==>
            s.notification == Some(if s.job.success then Sent else Failed))
      && s.row.Some?
      && s.row.value.status == (if s.log.stale then Retrying else JobOutcome(config.attempts, s.job.success))
      && s.row.value.retryCount == s.job.made - |s.log.finals|
  {
    RunIsExplained(config, redeliveries, run);
    HandlersAreDone(Exec(Init(config, redeliveries), run));
  }

  /** Without worker deaths, and with `attempts` neither 0 nor undefined: at most one mail, the job
      succeeds exactly if it went out, and both rows say so, except for the two races. */
  lemma DeathFreeOutcome(config: Config, redeliveries: nat, run: seq<Action>)
    requires Lossless(config, redeliveries, run) && FallbackIsHarmless(config.attempts)
    requires Exec(Init(config, redeliveries), run).log.deaths == 0
    ensures var s := Exec(Init(config, redeliveries), run);
      && (s.job.success <==> s.log.sends > 0)
      && s.log.sends <= 1
      && s.notification == Some(if s.log.late then Queued else if s.log.sends > 0 then Sent else Failed)
      && s.row.Some?
      && s.row.value.status == (if s.log.stale then Retrying else if s.log.sends > 0 then Completed else JobFailed)
  {
    RunIsExplained(config, redeliveries, run);
    LosslessOutcome(config, redeliveries, run);
    HandlersAreDone(Exec(Init(config, redeliveries), run));
  }

  /** With nothing lost and `attempts` neither 0 nor undefined, the row reads QUEUED at rest
      exactly when the producer's late QUEUED was the last write to it: over FAILED, or over SENT
      with neither SENT nor FAILED written since. Without worker deaths every late QUEUED is. */
  lemma QueuedAtRestIffLate(config: Config, redeliveries: nat, run: seq<Action>)
    requires Lossless(config, redeliveries, run) && FallbackIsHarmless(config.attempts)
    ensures var s := Exec(Init(config, redeliveries), run);
      && (s.notification == Some(Queued) <==>
            s.log.lateOverFailed || (s.log.late && s.log.sentMarks == 1 && s.log.failedMarks == 0))
      && (s.log.deaths == 0 ==> (s.notification == Some(Queued) <==> s.log.late))
  {
    RunIsExplained(config, redeliveries, run);
    HandlersAreDone(Exec(Init(config, redeliveries), run));
  }

  // ---- Termination ----

  function HandlerWork(h: Handler): nat {
    match h
    case BumpRetry => 2
    case FailRow => 2
    case Handled => 0
    case _ => 1
  }

  function HandlersWork(handlers: seq<Handler>): nat {
    if handlers == [] then 0
    else HandlersWork(handlers[..|handlers| - 1]) + HandlerWork(handlers[|handlers| - 1])
  }

  lemma {:induction false} HandlersWorkUpdate(handlers: seq<Handler>, i: nat, h: Handler)
    requires i < |handlers|
    ensures HandlersWork(handlers[i := h]) + HandlerWork(handlers[i]) == HandlersWork(handlers) + HandlerWork(h)
  {
    var last := |handlers| - 1;
    if i < last {
      HandlersWorkUpdate(handlers[..last], i, h);
      assert handlers[i := h][..last] == handlers[..last][i := h];
    } else {
      assert handlers[i := h][..last] == handlers[..last];
    }
  }

  function ProducerWork(p: Producer): nat {
    match p
    case CreateRow => 5
    case CreateJob => 4
    case AddJob => 3
    case MarkRowFailed => 2
    case MarkJobFailed => 1
    case MarkQueued => 1
    case _ => 0
  }

  function WorkerWork(at: Worker): nat {
    match at
    case Find => 8
    case MarkRunning => 7
    case Download => 6
    case Send => 5
    case MarkSent => 4
    case Skip => 4
    case _ => 3
  }

  /** A full attempt: Take, at most five worker steps, Conclude and two handler writes. */
  const ATTEMPT_WORK: nat := 9

  function AttemptsLeft(config: Config, made: nat): nat {
    if LastAttempt(config.attempts) > made then LastAttempt(config.attempts) - made else 0
  }

  function JobWork(s: State): nat {
    match s.job
    case NoJob => if s.producer.CreateRow? || s.producer.CreateJob? || s.producer.AddJob? then ATTEMPT_WORK * LastAttempt(s.config.attempts) else 0
    case Waiting(made) => ATTEMPT_WORK * AttemptsLeft(s.config, made)
    case Active(made, at) => ATTEMPT_WORK * AttemptsLeft(s.config, made + 1) + WorkerWork(at)
    case Finished(_, _) => 0
  }

  /** What is left to do, counted in steps. */
  function RemainingWork(s: State): nat {
    ProducerWork(s.producer) + JobWork(s) + HandlersWork(s.handlers) + ATTEMPT_WORK * s.redeliveries
  }

  lemma WorkerSpendsWork(s: State, ok: bool)
    requires WorkerEnabled(s)
    ensures RemainingWork(WorkerStep(s, ok)) < RemainingWork(s)
  {
    assert WorkerStep(s, ok).handlers == s.handlers;
  }

  lemma QueueSpendsWork(s: State)
    requires Counting(s)
    ensures s.job.Waiting? ==> RemainingWork(Fetch(s)) < RemainingWork(s)
    ensures s.job.Active? && s.redeliveries > 0 ==> RemainingWork(Die(s)) < RemainingWork(s)
  {}

  lemma SettleSpendsWork(s: State)
    requires SettleEnabled(s)
    ensures RemainingWork(Settle(s)) < RemainingWork(s)
  {
    assert Settle(s).handlers[..|s.handlers|] == s.handlers;
  }

  lemma HandlerSpendsWork(s: State, i: nat, ok: bool)
    requires i < |s.handlers| && !s.handlers[i].Handled?
    ensures RemainingWork(HandlerStep(s, i, ok)) < RemainingWork(s)
  {
    HandlersWorkUpdate(s.handlers, i, HandlerStep(s, i, ok).handlers[i]);
  }

  lemma StepSpendsWork(s: State, a: Action)
    requires Inv(s) && Enabled(s, a)
    ensures RemainingWork(Next(s, a)) < RemainingWork(s)
  {
    match a
    case Produce(_) =>
    case Take => QueueSpendsWork(s);
    case Work(ok) => WorkerSpendsWork(s, ok);
    case Conclude => SettleSpendsWork(s);
    case Perish => QueueSpendsWork(s);
    case Handle(i, ok) => HandlerSpendsWork(s, i, ok);
  }

  lemma {:induction false} RunSpendsWork(s: State, run: seq<Action>)
    requires Inv(s) && Legal(s, run)
    ensures |run| + RemainingWork(Exec(s, run)) <= RemainingWork(s)
    decreases |run|
  {
    if run != [] {
      StepSpendsWork(s, run[0]);
      StepKeepsInv(s, run[0]);
      RunSpendsWork(Next(s, run[0]), run[1..]);
    }
  }

  /** Every run is finite, with this bound on its length, and can only stop at rest. */
  lemma EveryRunComesToRest(config: Config, redeliveries: nat, run: seq<Action>)
    requires Legal(Init(config, redeliveries), run)
    ensures |run| <= 5 + ATTEMPT_WORK * (LastAttempt(config.attempts) + redeliveries)
    ensures Quiescent(Exec(Init(config, redeliveries), run))
         || exists a :: Enabled(Exec(Init(config, redeliveries), run), a)
  {
    var s := Exec(Init(config, redeliveries), run);
    InitInv(config, redeliveries);
    RunSpendsWork(Init(config, redeliveries), run);
    if !Quiescent(s) {
      if ProducerEnabled(s) {
        assert Enabled(s, Produce(true));
      } else if s.job.Waiting? {
        assert Enabled(s, Take);
      } else if s.job.Active? {
        assert Enabled(s, Work(true)) || Enabled(s, Conclude);
      } else {
        var i :| 0 <= i < |s.handlers| && !s.handlers[i].Handled?;
        assert Enabled(s, Handle(i, true));
      }
    }
  }
}
