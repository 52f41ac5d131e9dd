/** Which configurations make the ledgers trustworthy: exact conditions, with a run that goes
    wrong wherever they do not hold. */
module DeliveryRaces {
  import opened Options
  import opened JobQueue
  import opened DeliveryProtocol
  import opened DeliverySafety
  import opened DeliveryOutcomes
  import opened DeliveryTheorems

  // ---- Pieces of runs ----

  lemma Then(start: State, run: seq<Action>, more: seq<Action>) returns (longer: seq<Action>)
    requires Legal(start, run) && Legal(Exec(start, run), more)
    ensures Legal(start, longer) && Exec(start, longer) == Exec(Exec(start, run), more)
  {
    ExecAppend(start, run, more);
    longer := run + more;
  }

  /** The producer has added the job; QUEUED is still to be written. */
  lemma EnqueueUnmarked(config: Config, redeliveries: nat) returns (run: seq<Action>)
    ensures Legal(Init(config, redeliveries), run)
    ensures Exec(Init(config, redeliveries), run) ==
            State(config, MarkQueued, Some(Draft), Some(JobRow(JobQueued, 0)), Waiting(0), [], redeliveries, EMPTY_LOG)
  {
    var s := Init(config, redeliveries);
    run := Extend(s, [], Produce(true));
    run := Extend(s, run, Produce(true));
    run := Extend(s, run, Produce(true));
  }

  lemma Enqueue(config: Config, redeliveries: nat) returns (run: seq<Action>)
    ensures Legal(Init(config, redeliveries), run)
    ensures Exec(Init(config, redeliveries), run) ==
            State(config, Done, Some(Queued), Some(JobRow(JobQueued, 0)), Waiting(0), [], redeliveries,
                  EMPTY_LOG.(queuedMark := true))
  {
    run := EnqueueUnmarked(config, redeliveries);
    run := Extend(Init(config, redeliveries), run, Produce(true));
  }

  /** The first attempt, up to the point where it sends or downloads. */
  lemma Begin(s: State) returns (run: seq<Action>)
    requires s.job == Waiting(0) && s.row.Some? && s.notification.Some? && !Terminal(s.notification.value)
    ensures Legal(s, run)
    ensures Exec(s, run) == s.(job := Active(0, BeforeSend(s.config)), row := WriteJobStatus(s.row, Running),
                               log := s.log.(runs := s.log.runs + 1))
  {
    run := Extend(s, [], Take);
    run := Extend(s, run, Work(true));
    run := Extend(s, run, Work(true));
  }

  /** The mail goes out; SENT is still to be written. */
  lemma SendOut(s: State) returns (run: seq<Action>)
    requires s.job.Active? && s.job.at == BeforeSend(s.config)
    ensures Legal(s, run)
    ensures Exec(s, run) == s.(job := Active(s.job.made, MarkSent), log := s.log.(sends := s.log.sends + 1))
  {
    run := [];
    if s.config.attachment {
      run := Extend(s, run, Work(true));
    }
    run := Extend(s, run, Work(true));
  }

  /** The mail goes out in the first attempt of a job just enqueued. */
  lemma SendFirst(config: Config, redeliveries: nat) returns (run: seq<Action>)
    ensures Legal(Init(config, redeliveries), run)
    ensures Exec(Init(config, redeliveries), run) ==
            State(config, Done, Some(Queued), Some(JobRow(Running, 0)), Active(0, MarkSent), [], redeliveries,
                  EMPTY_LOG.(queuedMark := true, runs := 1, sends := 1))
  {
    var s := Init(config, redeliveries);
    run := Enqueue(config, redeliveries);
    var begin := Begin(Exec(s, run));
    run := Then(s, run, begin);
    var send := SendOut(Exec(s, run));
    run := Then(s, run, send);
  }

  /** The state after one more attempt that fails at once and whose handler has done its work. */
  function FailedOnce(s: State): State
    requires s.job.Waiting? && s.row.Some?
  {
    var made := s.job.made + 1;
    var final := WorkerSaysFinal(s.config.attempts, made);
    var row := s.row.value;
    s.(job := if RetriesAgain(s.config.attempts, made) then Waiting(made) else Finished(made, false),
       handlers := s.handlers + [Handled],
       notification := if final then Some(Failed) else s.notification,
       row := Some(if final then JobRow(JobFailed, row.retryCount) else JobRow(Retrying, row.retryCount + 1)),
       log := if final then
                s.log.(runs := s.log.runs + 1, finals := s.log.finals + [made], failedMarks := s.log.failedMarks + 1,
                       jobFailedMark := true, stale := false)
              else
                s.log.(runs := s.log.runs + 1, retries := s.log.retries + 1,
                       stale := s.log.stale || TerminalJob(row.status)))
  }

  lemma FailAttempt(s: State) returns (run: seq<Action>)
    requires s.job.Waiting?
    ensures Legal(s, run)
    ensures var made := s.job.made + 1;
      var final := WorkerSaysFinal(s.config.attempts, made);
      Exec(s, run) ==
        s.(job := if RetriesAgain(s.config.attempts, made) then Waiting(made) else Finished(made, false),
           handlers := s.handlers + [if final then FailRow else BumpRetry],
           log := if final then s.log.(runs := s.log.runs + 1, finals := s.log.finals + [made])
                  else s.log.(runs := s.log.runs + 1, retries := s.log.retries + 1))
  {
    run := Extend(s, [], Take);
    run := Extend(s, run, Work(false));
    run := Extend(s, run, Conclude);
  }

  lemma FailOnce(s: State) returns (run: seq<Action>)
    requires s.job.Waiting? && s.row.Some? && s.notification.Some?
    ensures Legal(s, run) && Exec(s, run) == FailedOnce(s)
  {
    run := FailAttempt(s);
    var handle := HandleFailure(Exec(s, run), s.handlers);
    run := Then(s, run, handle);
  }

  /** Both writes of the handler of the failure that has just happened. */
  lemma HandleFailure(s: State, before: seq<Handler>) returns (run: seq<Action>)
    requires s.row.Some? && s.notification.Some?
    requires s.handlers == before + [FailRow] || s.handlers == before + [BumpRetry]
    ensures Legal(s, run)
    ensures var row := s.row.value;
      Exec(s, run) == if s.handlers[|before|].FailRow? then
        s.(handlers := before + [Handled], notification := Some(Failed), row := Some(JobRow(JobFailed, row.retryCount)),
           log := s.log.(failedMarks := s.log.failedMarks + 1, jobFailedMark := true, stale := false))
      else
        s.(handlers := before + [Handled], row := Some(JobRow(Retrying, row.retryCount + 1)),
           log := s.log.(stale := s.log.stale || TerminalJob(row.status)))
  {
    run := Extend(s, [], Handle(|before|, true));
    run := Extend(s, run, Handle(|before|, true));
    assert Exec(s, run).handlers == before + [Handled];
  }

  /** `t` is `s` after all its remaining attempts have failed. */
  ghost predicate FailedFrom(s: State, t: State) {
    && t.config == s.config && t.producer == s.producer
    && t.job == Finished(LastAttempt(s.config.attempts), false)
    && ((forall h :: h in s.handlers ==> h.Handled?) ==> (forall h :: h in t.handlers ==> h.Handled?))
    && t.notification == (if FallbackIsHarmless(s.config.attempts) then Some(Failed) else s.notification)
    && t.row.Some? && t.row.value.status == JobOutcome(s.config.attempts, false)
    && t.log.sends == s.log.sends && t.log.lostWrites == s.log.lostWrites && t.log.late == s.log.late
    && t.log.deaths == s.log.deaths
    && (!FallbackIsHarmless(s.config.attempts) && s.row.Some? && TerminalJob(s.row.value.status) ==> t.log.stale)
  }

  lemma {:induction false} FailUntilDone(s: State) returns (run: seq<Action>)
    requires s.job.Waiting? && s.row.Some? && s.notification.Some?
    requires s.job.made == 0 || RetriesAgain(s.config.attempts, s.job.made)
    ensures Legal(s, run) && FailedFrom(s, Exec(s, run))
    decreases LastAttempt(s.config.attempts) - s.job.made
  {
    run := FailOnce(s);
    var t := FailedOnce(s);
    if t.job.Waiting? {
      var rest := FailUntilDone(t);
      run := Then(s, run, rest);
    }
  }

  // ---- Terminal statuses ----

  /** `run`, then `more`, without a late QUEUED. */
  ghost predicate TwoStretches(config: Config, redeliveries: nat, run: seq<Action>, more: seq<Action>) {
    && Legal(Init(config, redeliveries), run) && Legal(Exec(Init(config, redeliveries), run), more)
    && !Exec(Exec(Init(config, redeliveries), run), more).log.late
  }

  ghost predicate TerminalIsFinal(config: Config, redeliveries: nat) {
    forall run, more :: TwoStretches(config, redeliveries, run, more) ==>
      var s := Exec(Init(config, redeliveries), run);
      s.notification.Some? && Terminal(s.notification.value) ==> Exec(s, more).notification == s.notification
  }

  /** A mail that went out and was marked SENT reads FAILED for good: the worker died after the
      SENT write, every later attempt failed to read the row, and no write was lost. */
  lemma FailedOverSentHappens(config: Config, redeliveries: nat) returns (run: seq<Action>, more: seq<Action>)
    requires redeliveries > 0 && FallbackIsHarmless(config.attempts)
    ensures TwoStretches(config, redeliveries, run, more) && Lossless(config, redeliveries, run + more)
    ensures Exec(Init(config, redeliveries), run).notification == Some(Sent)
    ensures var t := Exec(Exec(Init(config, redeliveries), run), more);
      && t == Exec(Init(config, redeliveries), run + more)
      && t.notification == Some(Failed) && t.row.Some? && t.row.value.status == JobFailed
      && t.log.sends == 1 && !t.log.late
  {
    var init := Init(config, redeliveries);
    run := SendFirst(config, redeliveries);
    run := Extend(init, run, Work(true));
    var s := Exec(init, run);
    more := Extend(s, [], Perish);
    var fail := FailUntilDone(Exec(s, more));
    more := Then(s, more, fail);
    ExecAppend(init, run, more);
  }

  /** Unless QUEUED is written late, the first terminal status stays, in every run, if and only
      if the queue never redelivers after a worker death or no failure is ever final. */
  lemma TerminalIsFinalIff(config: Config, redeliveries: nat)
    ensures TerminalIsFinal(config, redeliveries) <==> redeliveries == 0 || !FallbackIsHarmless(config.attempts)
  {
    if redeliveries == 0 || !FallbackIsHarmless(config.attempts) {
      forall run, more | TwoStretches(config, redeliveries, run, more)
        ensures var s := Exec(Init(config, redeliveries), run);
          s.notification.Some? && Terminal(s.notification.value) ==> Exec(s, more).notification == s.notification
      {
        StatusMovesForward(config, redeliveries, run, more);
        ExecAppend(Init(config, redeliveries), run, more);
        RunIsExplained(config, redeliveries, run + more);
      }
    } else {
      var run, more := FailedOverSentHappens(config, redeliveries);
    }
  }

  // ---- What SENT and FAILED say about the mail ----

  /** A run at rest with no write lost and no late QUEUED. */
  ghost predicate Clean(config: Config, redeliveries: nat, run: seq<Action>) {
    Lossless(config, redeliveries, run) && !Exec(Init(config, redeliveries), run).log.late
  }

  /** A mail that went out although its row does not say so: the worker died before SENT was
      written and every later attempt failed. */
  lemma UnmarkedSendHappens(config: Config, redeliveries: nat) returns (run: seq<Action>)
    requires redeliveries > 0
    ensures Clean(config, redeliveries, run)
    ensures var s := Exec(Init(config, redeliveries), run);
      s.log.sends == 1 && s.notification == Some(if FallbackIsHarmless(config.attempts) then Failed else Queued)
  {
    var init := Init(config, redeliveries);
    run := SendFirst(config, redeliveries);
    run := Extend(init, run, Perish);
    var fail := FailUntilDone(Exec(init, run));
    run := Then(init, run, fail);
  }

  ghost predicate SentTells(config: Config, redeliveries: nat) {
    forall run :: Clean(config, redeliveries, run) ==>
      var s := Exec(Init(config, redeliveries), run);
      s.notification == Some(Sent) <==> s.log.sends > 0
  }

  /** With nothing lost and QUEUED in time, SENT tells exactly who got the mail if and only if the
      queue never redelivers after a worker death. */
  lemma SentTellsIff(config: Config, redeliveries: nat)
    ensures SentTells(config, redeliveries) <==> redeliveries == 0
  {
    if redeliveries == 0 {
      forall run | Clean(config, redeliveries, run)
        ensures var s := Exec(Init(config, redeliveries), run); s.notification == Some(Sent) <==> s.log.sends > 0
      {
        RunIsExplained(config, redeliveries, run);
        LosslessOutcome(config, redeliveries, run);
        HandlersAreDone(Exec(Init(config, redeliveries), run));
      }
    } else {
      var run := UnmarkedSendHappens(config, redeliveries);
    }
  }

  ghost predicate HidesDelivery(config: Config, redeliveries: nat, run: seq<Action>) {
    && Clean(config, redeliveries, run)
    && Exec(Init(config, redeliveries), run).notification == Some(Failed)
    && Exec(Init(config, redeliveries), run).log.sends > 0
  }

  /** A delivered mail can read FAILED, with nothing lost and QUEUED in time, if and only if the
      queue redelivers after a worker death and failures can be final. */
  lemma FailedHidesDeliveryIff(config: Config, redeliveries: nat)
    ensures (exists run :: HidesDelivery(config, redeliveries, run))
        <==> redeliveries > 0 && FallbackIsHarmless(config.attempts)
  {
    if redeliveries > 0 && FallbackIsHarmless(config.attempts) {
      var run := UnmarkedSendHappens(config, redeliveries);
      assert HidesDelivery(config, redeliveries, run);
    }
    forall run | HidesDelivery(config, redeliveries, run)
      ensures redeliveries > 0 && FallbackIsHarmless(config.attempts)
    {
      NotificationOutcome(config, redeliveries, run);
      SentTellsIff(config, redeliveries);
    }
  }

  // ---- The job row ----

  /** With one attempt that can be final, no retry handler ever exists. */
  ghost predicate NoRetryHandlers(s: State) {
    LastAttempt(s.config.attempts) == 1 && FallbackIsHarmless(s.config.attempts) ==>
      && !s.log.stale
      && forall i :: 0 <= i < |s.handlers| ==> !s.handlers[i].BumpRetry? && !s.handlers[i].SetRetrying?
  }

  lemma StepKeepsNoRetryHandlers(s: State, a: Action)
    requires Counting(s) && NoRetryHandlers(s) && Enabled(s, a)
    ensures NoRetryHandlers(Next(s, a))
  {
    match a
    case Produce(ok) => ProducerSparesRedeliveries(s, ok);
    case Take =>
    case Work(ok) => WorkerSparesRedeliveries(s, ok);
    case Conclude =>
    case Perish =>
    case Handle(i, ok) => HandlerKeepsNoRetryHandlers(s, i, ok);
  }

  lemma HandlerKeepsNoRetryHandlers(s: State, i: nat, ok: bool)
    requires NoRetryHandlers(s) && i < |s.handlers| && !s.handlers[i].Handled?
    ensures NoRetryHandlers(HandlerStep(s, i, ok))
  {
    match s.handlers[i]
    case CompleteJob =>
    case BumpRetry =>
    case SetRetrying =>
    case FailRow =>
    case FailJob =>
  }

  predicate GoingWell(job: Job) {
    (job.Active? && job.at.Returned?) || (job.Finished? && job.success)
  }

  /** While no failure can be final: COMPLETED before the job's end takes a death to come to the
      guard's way out, and a second one to go on from there. */
  ghost predicate DeathsCompleteEarly(s: State) {
    !FallbackIsHarmless(s.config.attempts) && !s.job.NoJob? ==>
      && s.row.Some? && !s.row.value.status.JobFailed?
      && (s.log.sentMarks > 0 && !s.job.Finished? && !(s.job.Active? && s.job.at.Returned?) ==> s.log.deaths >= 1)
      && (s.row.value.status.Completed? && s.job.Active? && s.job.at.Returned? ==> s.log.deaths >= 1)
      && (s.row.value.status.Completed? && !GoingWell(s.job) ==> s.log.deaths >= 2)
      && (s.log.stale ==> s.log.deaths >= 2)
      && (s.job.Finished? && s.job.success ==>
            |s.handlers| == 1 && (s.handlers[0].CompleteJob? || s.handlers[0].Handled?))
  }

  lemma ProducerKeepsDeaths(s: State, ok: bool)
    requires Shape(s) && DeathsCompleteEarly(s) && ProducerEnabled(s)
    ensures DeathsCompleteEarly(ProducerStep(s, ok))
  {
    match s.producer
    case CreateRow =>
    case CreateJob =>
    case AddJob =>
    case MarkQueued =>
    case MarkRowFailed =>
    case MarkJobFailed =>
  }

  lemma WorkerKeepsDeaths(s: State, ok: bool)
    requires Shape(s) && Finality(s) && StatusExplained(s) && Marked(s) && DeathsCompleteEarly(s) && WorkerEnabled(s)
    requires s.log.stale ==> s.job.made > 0
    ensures DeathsCompleteEarly(WorkerStep(s, ok))
  {
    assert s.log.finals == [];
    match s.job.at
    case Find =>
    case Skip =>
    case MarkRunning =>
    case Download =>
    case Send =>
    case MarkSent =>
  }

  lemma SettleKeepsDeaths(s: State)
    requires Counting(s) && DeathsCompleteEarly(s) && SettleEnabled(s)
    ensures DeathsCompleteEarly(Settle(s))
  {
    match s.job.at
    case Returned =>
    case Thrown =>
  }

  lemma HandlerKeepsDeaths(s: State, i: nat, ok: bool)
    requires Shape(s) && Finality(s) && Counting(s) && DeathsCompleteEarly(s) && i < |s.handlers| && !s.handlers[i].Handled?
    ensures DeathsCompleteEarly(HandlerStep(s, i, ok))
  {
    match s.handlers[i]
    case CompleteJob =>
    case BumpRetry =>
    case SetRetrying =>
    case FailRow =>
    case FailJob =>
  }

  lemma StepKeepsDeaths(s: State, a: Action)
    requires Explained(s) && DeathsCompleteEarly(s) && Enabled(s, a)
    ensures DeathsCompleteEarly(Next(s, a))
  {
    match a
    case Produce(ok) => ProducerKeepsDeaths(s, ok);
    case Take =>
    case Work(ok) => WorkerKeepsDeaths(s, ok);
    case Conclude => SettleKeepsDeaths(s);
    case Perish =>
    case Handle(i, ok) => HandlerKeepsDeaths(s, i, ok);
  }

  lemma {:induction false} RunKeepsBoth(s: State, run: seq<Action>)
    requires Explained(s) && NoRetryHandlers(s) && DeathsCompleteEarly(s) && Legal(s, run)
    ensures NoRetryHandlers(Exec(s, run)) && DeathsCompleteEarly(Exec(s, run))
    decreases |run|
  {
    if run != [] {
      StepKeepsNoRetryHandlers(s, run[0]);
      StepKeepsDeaths(s, run[0]);
      StepKeepsExplained(s, run[0]);
      RunKeepsBoth(Next(s, run[0]), run[1..]);
    }
  }

  /** A slow handler of the first failure overtakes the second attempt: the mail is out, nothing
      was lost, and the job row says RETRYING for good. */
  lemma StaleRetryHappens(config: Config, redeliveries: nat) returns (run: seq<Action>)
    requires config.attempts.Limit? && config.attempts.n > 1
    ensures Clean(config, redeliveries, run)
    ensures var s := Exec(Init(config, redeliveries), run);
      s.log.stale && s.job.success && s.log.deaths == 0 && s.row == Some(JobRow(Retrying, 1))
  {
    var init := Init(config, redeliveries);
    run := FirstFailure(config, redeliveries);
    run := Extend(init, run, Take);
    run := Extend(init, run, Work(true));
    var send := SendOut(Exec(init, run));
    run := Then(init, run, send);
    run := Extend(init, run, Work(true));
    run := Extend(init, run, Conclude);
    run := Extend(init, run, Handle(1, true));
    run := Extend(init, run, Handle(0, true));
  }

  /** The first attempt has failed; its handler has counted the retry and not yet marked it. */
  lemma FirstFailure(config: Config, redeliveries: nat) returns (run: seq<Action>)
    requires config.attempts.Limit? && config.attempts.n > 1
    ensures Legal(Init(config, redeliveries), run)
    ensures Exec(Init(config, redeliveries), run) ==
            State(config, Done, Some(Queued), Some(JobRow(JobQueued, 1)), Waiting(1), [SetRetrying], redeliveries,
                  EMPTY_LOG.(queuedMark := true, runs := 1, retries := 1))
  {
    var init := Init(config, redeliveries);
    run := Enqueue(config, redeliveries);
    var fail := FailAttempt(Exec(init, run));
    run := Then(init, run, fail);
    run := Extend(init, run, Handle(0, true));
  }

  /** With `attempts` 0 or undefined it takes two worker deaths: one leads to the guard's way
      out, which completes the row, the next to a failure that marks it RETRYING. */
  lemma StaleAfterTwoDeaths(config: Config, redeliveries: nat) returns (run: seq<Action>)
    requires !FallbackIsHarmless(config.attempts) && redeliveries >= 2
    ensures Clean(config, redeliveries, run) && Exec(Init(config, redeliveries), run).log.stale
  {
    var init := Init(config, redeliveries);
    run := SendFirst(config, redeliveries);
    run := Extend(init, run, Work(true));
    run := Extend(init, run, Perish);
    run := Extend(init, run, Take);
    run := Extend(init, run, Work(true));
    run := Extend(init, run, Work(true));
    run := Extend(init, run, Perish);
    var fail := FailUntilDone(Exec(init, run));
    run := Then(init, run, fail);
  }

  ghost predicate StaleInRun(config: Config, redeliveries: nat, run: seq<Action>) {
    Legal(Init(config, redeliveries), run) && Exec(Init(config, redeliveries), run).log.stale
  }

  /** RETRYING can overwrite a terminal job status if and only if the queue retries at all, or
      `attempts` is 0 or undefined and the queue redelivers twice; without a worker death, if and
      only if the queue retries at all. */
  lemma StaleRetryIff(config: Config, redeliveries: nat)
    ensures (exists run :: StaleInRun(config, redeliveries, run))
        <==> || (config.attempts.Limit? && config.attempts.n > 1)
             || (!FallbackIsHarmless(config.attempts) && redeliveries >= 2)
    ensures (exists run :: StaleInRun(config, redeliveries, run) && Exec(Init(config, redeliveries), run).log.deaths == 0)
        <==> config.attempts.Limit? && config.attempts.n > 1
  {
    if config.attempts.Limit? && config.attempts.n > 1 {
      var run := StaleRetryHappens(config, redeliveries);
      assert StaleInRun(config, redeliveries, run);
    }
    if !FallbackIsHarmless(config.attempts) && redeliveries >= 2 {
      var run := StaleAfterTwoDeaths(config, redeliveries);
      assert StaleInRun(config, redeliveries, run);
    }
    forall run | StaleInRun(config, redeliveries, run)
      ensures (config.attempts.Limit? && config.attempts.n > 1) ||
              (!FallbackIsHarmless(config.attempts) && Exec(Init(config, redeliveries), run).log.deaths >= 2)
      ensures Exec(Init(config, redeliveries), run).log.deaths <= redeliveries
    {
      InitInv(config, redeliveries);
      RunKeepsBoth(Init(config, redeliveries), run);
      RunIsExplained(config, redeliveries, run);
    }
  }

  ghost predicate JobRowTells(config: Config, redeliveries: nat) {
    forall run :: Lossless(config, redeliveries, run) ==>
      var s := Exec(Init(config, redeliveries), run);
      s.row.Some? && s.row.value.status == if s.job.success then Completed else JobFailed
  }

  /** With no write lost the job row tells at rest how the job ended, in every run, if and only if
      the job is given exactly one attempt (a negative number counts as one, 0 does not). */
  lemma JobRowTellsIff(config: Config, redeliveries: nat)
    ensures JobRowTells(config, redeliveries)
        <==> config.attempts.Limit? && config.attempts.n <= 1 && config.attempts.n != 0
  {
    if config.attempts.Limit? && config.attempts.n > 1 {
      var run := StaleRetryHappens(config, redeliveries);
    }
    if !FallbackIsHarmless(config.attempts) {
      var run := ZeroAttemptsStrandsNotification(config, redeliveries);
    }
    if config.attempts.Limit? && config.attempts.n <= 1 && config.attempts.n != 0 {
      forall run | Lossless(config, redeliveries, run)
        ensures var s := Exec(Init(config, redeliveries), run);
          s.row.Some? && s.row.value.status == if s.job.success then Completed else JobFailed
      {
        LosslessOutcome(config, redeliveries, run);
        StaleRetryIff(config, redeliveries);
        assert !StaleInRun(config, redeliveries, run);
      }
    }
  }

  // ---- Single runs ----

  /** With `attempts` 0 or undefined, one failure and no lost write leave the job finished for
      the queue, RETRYING in its row, and the notification QUEUED. */
  lemma ZeroAttemptsStrandsNotification(config: Config, redeliveries: nat) returns (run: seq<Action>)
    requires !FallbackIsHarmless(config.attempts)
    ensures Clean(config, redeliveries, run)
    ensures var s := Exec(Init(config, redeliveries), run);
      s.job == Finished(1, false) && s.notification == Some(Queued) && s.row == Some(JobRow(Retrying, 1))
  {
    var init := Init(config, redeliveries);
    run := Enqueue(config, redeliveries);
    var fail := FailOnce(Exec(init, run));
    run := Then(init, run, fail);
  }

  /** The first attempt goes through, and QUEUED is written over SENT. */
  lemma QueuedOverSent(config: Config, redeliveries: nat) returns (run: seq<Action>)
    ensures Legal(Init(config, redeliveries), run)
    ensures Exec(Init(config, redeliveries), run) ==
            State(config, Done, Some(Queued), Some(JobRow(Running, 0)), Active(0, Returned), [], redeliveries,
                  EMPTY_LOG.(runs := 1, sends := 1, sentMarks := 1, queuedMark := true, late := true))
  {
    var init := Init(config, redeliveries);
    run := EnqueueUnmarked(config, redeliveries);
    var begin := Begin(Exec(init, run));
    run := Then(init, run, begin);
    var send := SendOut(Exec(init, run));
    run := Then(init, run, send);
    run := Extend(init, run, Work(true));
    run := Extend(init, run, Produce(true));
  }

  /** The mail went out, nothing failed, and the row still reads QUEUED for good. */
  lemma LateQueuedHappens(config: Config, redeliveries: nat) returns (run: seq<Action>)
    ensures Lossless(config, redeliveries, run)
    ensures var s := Exec(Init(config, redeliveries), run);
      s.log.sends == 1 && s.log.deaths == 0 && s.notification == Some(Queued)
  {
    var init := Init(config, redeliveries);
    run := QueuedOverSent(config, redeliveries);
    run := Extend(init, run, Conclude);
    run := Extend(init, run, Handle(0, true));
  }

  /** One worker death after SENT was written, QUEUED written in between: two mails, with no
      write lost. The term for `late` in SendsAreBounded cannot be dropped. */
  lemma LateQueuedCanDuplicate(config: Config, redeliveries: nat) returns (run: seq<Action>)
    requires redeliveries > 0
    ensures Legal(Init(config, redeliveries), run)
    ensures var s := Exec(Init(config, redeliveries), run);
      s.log.sends == 2 && s.log.lostWrites == 0 && s.log.deathsAfterSend == 0
  {
    var init := Init(config, redeliveries);
    run := QueuedOverSent(config, redeliveries);
    run := Extend(init, run, Perish);
    var begin := Begin(Exec(init, run));
    run := Then(init, run, begin);
    var send := SendOut(Exec(init, run));
    run := Then(init, run, send);
  }
}
