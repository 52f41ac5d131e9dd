/**
 * The services themselves, updating their tables statement by statement. Each method carries
 * the protocol state it starts from as a ghost argument and is proved to leave the tables as
 * a run of that protocol does, taking only its own steps.
 */
module DeliveryServices {
  import opened Options
  import opened JobQueue
  import opened DeliveryProtocol

  type Id = string

  function Lookup<V>(rows: map<Id, V>, id: Id): Option<V> {
    if id in rows then Some(rows[id]) else None
  }

  function Store<V>(rows: map<Id, V>, id: Id, row: Option<V>): map<Id, V> {
    if row.Some? then rows[id := row.value] else rows
  }

  class NotificationTable {
    var rows: map<Id, DeliveryStatus>

    method Update(id: Id, status: DeliveryStatus)
      modifies this
      ensures rows == Store(old(rows), id, WriteStatus(Lookup(old(rows), id), status))
      ensures rows == if id in old(rows) then old(rows)[id := status] else old(rows)
    {
      if id in rows {
        rows := rows[id := status];
      }
    }
  }

  class BackgroundJobsService {
    var rows: map<Id, JobRow>

    method CreateQueuedJob(id: Id)
      modifies this
      ensures rows == old(rows)[id := JobRow(JobQueued, 0)]
    {
      rows := rows[id := JobRow(JobQueued, 0)];
    }

    method UpdateStatus(id: Id, status: JobStatus)
      modifies this
      ensures rows == Store(old(rows), id, WriteJobStatus(Lookup(old(rows), id), status))
      ensures rows == if id in old(rows) then old(rows)[id := JobRow(status, old(rows)[id].retryCount)] else old(rows)
    {
      if id in rows {
        rows := rows[id := rows[id].(status := status)];
      }
    }

    method IncrementRetryCount(id: Id)
      modifies this
      ensures rows == Store(old(rows), id, IncrementRetries(Lookup(old(rows), id)))
      ensures rows == if id in old(rows) then old(rows)[id := JobRow(old(rows)[id].status, old(rows)[id].retryCount + 1)]
                      else old(rows)
    {
      if id in rows {
        rows := rows[id := rows[id].(retryCount := rows[id].retryCount + 1)];
      }
    }
  }

  /** The mail of a notification, with or without its attachment. */
  datatype Mail = Mail(id: Id, attached: bool)

  class MailService {
    var delivered: seq<Mail>

    method SendMail(mail: Mail, accepted: bool) returns (success: bool)
      modifies this
      ensures success == accepted
      ensures delivered == if accepted then old(delivered) + [mail] else old(delivered)
    {
      if accepted {
        delivered := delivered + [mail];
      }
      success := accepted;
    }
  }

  // ---- Running one party of the protocol alone ----

  /** Which of the calls inside `process` succeed. */
  datatype ProcessCalls = ProcessCalls(find: bool, markCompleted: bool, markRunning: bool,
                                       download: bool, send: bool, markSent: bool)

  function Succeeds(calls: ProcessCalls, at: Worker): bool {
    match at
    case Find => calls.find
    case Skip => calls.markCompleted
    case MarkRunning => calls.markRunning
    case Download => calls.download
    case Send => calls.send
    case _ => calls.markSent
  }

  function StepsToGo(at: Worker): nat {
    match at
    case Find => 5
    case MarkRunning => 4
    case Download => 3
    case Send => 2
    case MarkSent => 1
    case Skip => 1
    case _ => 0
  }

  function WorkAlone(s: State, calls: ProcessCalls): State
    requires s.job.Active?
    decreases StepsToGo(s.job.at)
  {
    if !WorkerEnabled(s) then s else WorkAlone(WorkerStep(s, Succeeds(calls, s.job.at)), calls)
  }

  /** A worker running alone is one of the protocol's runs. */
  lemma {:induction false} WorkAloneIsRun(s: State, calls: ProcessCalls) returns (run: seq<Action>)
    requires s.job.Active?
    ensures Legal(s, run) && Exec(s, run) == WorkAlone(s, calls)
    ensures forall a :: a in run ==> a.Work?
    ensures WorkAlone(s, calls).job.Active? && SettleEnabled(WorkAlone(s, calls))
    decreases StepsToGo(s.job.at)
  {
    run := [];
    if WorkerEnabled(s) {
      var ok := Succeeds(calls, s.job.at);
      var rest := WorkAloneIsRun(WorkerStep(s, ok), calls);
      run := [Work(ok)] + rest;
      assert run[1..] == rest;
    }
  }

  /** The two writes of a failed-event handler; the second is not tried if the first fails. */
  function HandleAlone(s: State, i: nat, first: bool, second: bool): State
    requires i < |s.handlers| && !s.handlers[i].Handled?
  {
    var t := HandlerStep(s, i, first);
    if t.handlers[i].Handled? then t else HandlerStep(t, i, second)
  }

  datatype EnqueueCalls = EnqueueCalls(createRow: bool, createJob: bool, addJob: bool,
                                       markQueued: bool, markRowFailed: bool, markJobFailed: bool)

  function ProducerSucceeds(calls: EnqueueCalls, at: Producer): bool {
    match at
    case CreateRow => calls.createRow
    case CreateJob => calls.createJob
    case AddJob => calls.addJob
    case MarkQueued => calls.markQueued
    case MarkRowFailed => calls.markRowFailed
    case _ => calls.markJobFailed
  }

  function ProducerStepsToGo(at: Producer): nat {
    match at
    case CreateRow => 5
    case CreateJob => 4
    case AddJob => 3
    case MarkRowFailed => 2
    case MarkQueued => 1
    case MarkJobFailed => 1
    case _ => 0
  }

  function ProduceAlone(s: State, calls: EnqueueCalls): State
    decreases ProducerStepsToGo(s.producer)
  {
    if !ProducerEnabled(s) then s
    else ProduceAlone(ProducerStep(s, ProducerSucceeds(calls, s.producer)), calls)
  }

  /** A producer running alone is one of the protocol's runs. */
  lemma {:induction false} ProduceAloneIsRun(s: State, calls: EnqueueCalls) returns (run: seq<Action>)
    ensures Legal(s, run) && Exec(s, run) == ProduceAlone(s, calls)
    ensures forall a :: a in run ==> a.Produce?
    ensures !ProducerEnabled(ProduceAlone(s, calls))
    decreases ProducerStepsToGo(s.producer)
  {
    run := [];
    if ProducerEnabled(s) {
      var ok := ProducerSucceeds(calls, s.producer);
      var rest := ProduceAloneIsRun(ProducerStep(s, ok), calls);
      run := [Produce(ok)] + rest;
      assert run[1..] == rest;
    }
  }

  // ---- NotificationWorkerService ----

  datatype ProcessResult = Resolved(sent: bool) | Rejected

  datatype EmailJob = EmailJob(name: string, notificationId: Id, backgroundJobId: Id,
                               attachment: bool, attemptsMade: nat, attempts: Attempts)

  const SEND_EMAIL := "send-email"

  class NotificationWorkerService {
    const mail: MailService
    const jobs: BackgroundJobsService
    const notifications: NotificationTable

    constructor (mail: MailService, jobs: BackgroundJobsService, notifications: NotificationTable)
      ensures this.mail == mail && this.jobs == jobs && this.notifications == notifications
    {
      this.mail := mail;
      this.jobs := jobs;
      this.notifications := notifications;
    }

    /** The tables hold the rows of protocol state `s`. */
    ghost predicate Shows(job: EmailJob, s: State)
      reads notifications, jobs
    {
      && Lookup(notifications.rows, job.notificationId) == s.notification
      && Lookup(jobs.rows, job.backgroundJobId) == s.row
    }

    /** The RUNNING write of the first attempt, and the attachment download: a failure of either
        ends the attempt. */
    method Prepare(job: EmailJob, calls: ProcessCalls, ghost s: State)
      returns (ready: bool, attached: bool, ghost t: State)
      requires Shows(job, s) && s.notification.Some? && s.config.attachment == job.attachment
      requires s.job == Active(job.attemptsMade, if job.attemptsMade == 0 then MarkRunning else BeforeSend(s.config))
      modifies jobs
      ensures t.job.Active? && WorkAlone(t, calls) == WorkAlone(s, calls)
      ensures t == s.(job := t.job, row := t.row, log := t.log)
      ensures t.log == s.log.(lostWrites := t.log.lostWrites)
      ensures t.job == Active(job.attemptsMade, if ready then Send else Thrown)
      ensures Shows(job, t)
      ensures jobs.rows == Store(old(jobs.rows), job.backgroundJobId, t.row)
      ensures ready <==> (job.attemptsMade == 0 ==> calls.markRunning) && (job.attachment ==> calls.download)
      ensures ready ==> attached == job.attachment
      ensures jobs.rows == if job.attemptsMade == 0 && calls.markRunning && job.backgroundJobId in old(jobs.rows) then
                             old(jobs.rows)[job.backgroundJobId :=
                               JobRow(Running, old(jobs.rows)[job.backgroundJobId].retryCount)]
                           else old(jobs.rows)
    {
      attached, t := false, s;
      if job.attemptsMade == 0 {
        t := WorkerStep(t, calls.markRunning);
        assert WorkAlone(t, calls) == WorkAlone(s, calls);
        if !calls.markRunning {
          return false, attached, t;
        }
        jobs.UpdateStatus(job.backgroundJobId, Running);
      }
      if job.attachment {
        ghost var u := t;
        t := WorkerStep(t, calls.download);
        assert WorkAlone(t, calls) == WorkAlone(u, calls);
        if !calls.download {
          return false, attached, t;
        }
        attached := true;
      }
      return true, attached, t;
    }

    /** sendMail and the SENT write. */
    method Deliver(job: EmailJob, attached: bool, calls: ProcessCalls, ghost s: State)
      returns (result: ProcessResult, ghost t: State)
      requires Shows(job, s) && s.job == Active(job.attemptsMade, Send)
      modifies mail, notifications
      ensures t == WorkAlone(s, calls)
      ensures t.row == s.row
      ensures Shows(job, t)
      ensures notifications.rows == Store(old(notifications.rows), job.notificationId, t.notification)
      ensures mail.delivered == if calls.send then old(mail.delivered) + [Mail(job.notificationId, attached)]
                                else old(mail.delivered)
      ensures t.log.sends > s.log.sends <==> calls.send
      ensures notifications.rows == if calls.send && calls.markSent && job.notificationId in old(notifications.rows)
                                    then old(notifications.rows)[job.notificationId := Sent]
                                    else old(notifications.rows)
      ensures result == if calls.send && calls.markSent then Resolved(true) else Rejected
      ensures t.job == Active(job.attemptsMade, if result.Rejected? then Thrown else Returned)
      ensures result.Resolved? <==> t.log.sentMarks > s.log.sentMarks
    {
      var success := mail.SendMail(Mail(job.notificationId, attached), calls.send);
      t := WorkerStep(s, calls.send);
      assert WorkAlone(t, calls) == WorkAlone(s, calls);
      if !success {
        return Rejected, t;
      }
      ghost var u := t;
      t := WorkerStep(t, calls.markSent);
      assert WorkAlone(t, calls) == WorkAlone(u, calls);
      if !calls.markSent {
        return Rejected, t;
      }
      notifications.Update(job.notificationId, Sent);
      return Resolved(true), t;
    }

    /** The guard's way out: no row, or a row that is already SENT, FAILED or CANCELLED. */
    method SkipJob(job: EmailJob, calls: ProcessCalls, ghost s: State) returns (result: ProcessResult, ghost t: State)
      requires Shows(job, s) && s.job == Active(job.attemptsMade, Skip)
      modifies jobs
      ensures t == WorkAlone(s, calls)
      ensures t == s.(job := t.job, row := t.row, log := t.log)
      ensures t.log.sends == s.log.sends && t.log.sentMarks == s.log.sentMarks
      ensures Shows(job, t)
      ensures jobs.rows == Store(old(jobs.rows), job.backgroundJobId, t.row)
      ensures jobs.rows == if calls.markCompleted && job.backgroundJobId in old(jobs.rows) then
                             old(jobs.rows)[job.backgroundJobId :=
                               JobRow(Completed, old(jobs.rows)[job.backgroundJobId].retryCount)]
                           else old(jobs.rows)
      ensures result == if calls.markCompleted then Resolved(false) else Rejected
      ensures t.job == Active(job.attemptsMade, if result.Rejected? then Thrown else Returned)
    {
      t := WorkerStep(s, calls.markCompleted);
      assert WorkAlone(t, calls) == WorkAlone(s, calls);
      if !calls.markCompleted {
        return Rejected, t;
      }
      jobs.UpdateStatus(job.backgroundJobId, Completed);
      return Resolved(false), t;
    }

    /** What `process` does once the row is found open. */
    method Attempt(job: EmailJob, calls: ProcessCalls, ghost s: State)
      returns (result: ProcessResult, ghost t: State)
      requires Shows(job, s) && s.notification.Some? && s.config.attachment == job.attachment
      requires s.job == Active(job.attemptsMade, if job.attemptsMade == 0 then MarkRunning else BeforeSend(s.config))
      modifies mail, jobs, notifications
      ensures t == WorkAlone(s, calls) && Shows(job, t)
      ensures notifications.rows == Store(old(notifications.rows), job.notificationId, t.notification)
      ensures jobs.rows == Store(old(jobs.rows), job.backgroundJobId, t.row)
      ensures t.job == Active(job.attemptsMade, if result.Rejected? then Thrown else Returned)
      ensures var starts := job.attemptsMade == 0 ==> calls.markRunning;
        var sends := starts && (job.attachment ==> calls.download) && calls.send;
        && result == (if sends && calls.markSent then Resolved(true) else Rejected)
        && (result.Resolved? <==> t.log.sentMarks > s.log.sentMarks)
        && (sends <==> t.log.sends > s.log.sends)
        && mail.delivered == (if sends then old(mail.delivered) + [Mail(job.notificationId, job.attachment)]
                              else old(mail.delivered))
        && notifications.rows == (if sends && calls.markSent then old(notifications.rows)[job.notificationId := Sent]
                                  else old(notifications.rows))
        && jobs.rows == (if starts && job.attemptsMade == 0 && job.backgroundJobId in old(jobs.rows) then
                           old(jobs.rows)[job.backgroundJobId :=
                             JobRow(Running, old(jobs.rows)[job.backgroundJobId].retryCount)]
                         else old(jobs.rows))
    {
      var ready, attached;
      ready, attached, t := Prepare(job, calls, s);
      if !ready {
        return Rejected, t;
      }
      result, t := Deliver(job, attached, calls, t);
    }

    /**
     * The first group of postconditions ties `process` to the protocol. The second says outright
     * what it does to the tables and the outbox: the mail goes out, with its attachment if it has
     * one, exactly if every call up to it succeeds and the row is open; SENT is written exactly if
     * that call succeeds too.
     */
    method Process(job: EmailJob, calls: ProcessCalls, ghost s: State)
      returns (result: ProcessResult, ghost t: State)
      requires Shows(job, s) && s.job == Active(job.attemptsMade, Find) && s.config.attachment == job.attachment
      modifies mail, jobs, notifications
      ensures t == if job.name == SEND_EMAIL then WorkAlone(s, calls) else s
      ensures Shows(job, t)
      ensures notifications.rows == Store(old(notifications.rows), job.notificationId, t.notification)
      ensures jobs.rows == Store(old(jobs.rows), job.backgroundJobId, t.row)
      ensures job.name == SEND_EMAIL ==> t.job == Active(job.attemptsMade, if result.Rejected? then Thrown else Returned)
      ensures var id, jobId, before := job.notificationId, job.backgroundJobId, old(jobs.rows);
        var found := job.name == "send-email" && calls.find;
        var open := id in old(notifications.rows) && old(notifications.rows)[id] != Sent &&
                    old(notifications.rows)[id] != Failed && old(notifications.rows)[id] != Cancelled;
        var starts := found && open && (job.attemptsMade == 0 ==> calls.markRunning);
        var sends := starts && (job.attachment ==> calls.download) && calls.send;
        var skips := found && !open && calls.markCompleted;
        && (result == Resolved(true) <==> sends && calls.markSent)
        && (result == Resolved(false) <==> job.name != "send-email" || skips)
        && mail.delivered == (if sends then old(mail.delivered) + [Mail(id, job.attachment)] else old(mail.delivered))
        && notifications.rows == (if sends && calls.markSent then old(notifications.rows)[id := Sent]
                                  else old(notifications.rows))
        && jobs.rows == (if jobId !in before then before
                         else if skips then before[jobId := JobRow(Completed, before[jobId].retryCount)]
                         else if starts && job.attemptsMade == 0 then
                           before[jobId := JobRow(Running, before[jobId].retryCount)]
                         else before)
    {
      t := s;
      if job.name != SEND_EMAIL {
        return Resolved(false), t;
      }
      t := WorkerStep(s, calls.find);
      assert WorkAlone(t, calls) == WorkAlone(s, calls);
      if !calls.find {
        return Rejected, t;
      }
      if job.notificationId !in notifications.rows || Terminal(notifications.rows[job.notificationId]) {
        result, t := SkipJob(job, calls, t);
        return result, t;
      }
      result, t := Attempt(job, calls, t);
    }

    method OnJobCompleted(job: EmailJob, markCompleted: bool, ghost s: State, ghost i: nat)
      returns (ghost t: State)
      requires Shows(job, s) && i < |s.handlers| && s.handlers[i].CompleteJob?
      modifies jobs
      ensures t == if job.name == SEND_EMAIL then HandlerStep(s, i, markCompleted) else s
      ensures Shows(job, t)
      ensures jobs.rows == Store(old(jobs.rows), job.backgroundJobId, t.row)
      ensures var jobId, before := job.backgroundJobId, old(jobs.rows);
        jobs.rows == if job.name == "send-email" && markCompleted && jobId in before then
                       before[jobId := JobRow(Completed, before[jobId].retryCount)]
                     else before
    {
      t := s;
      if job.name != SEND_EMAIL {
        return;
      }
      if markCompleted {
        jobs.UpdateStatus(job.backgroundJobId, Completed);
      }
      t := HandlerStep(s, i, markCompleted);
    }

    /** `job` is None when the queue no longer knows the job that failed. */
    method OnJobFailed(event: Option<EmailJob>, first: bool, second: bool, ghost s: State, ghost i: nat)
      returns (ghost t: State)
      requires event.Some? ==> Shows(event.value, s) && i < |s.handlers|
      requires event.Some? ==> s.handlers[i] == if WorkerSaysFinal(event.value.attempts, event.value.attemptsMade)
                                                then FailRow else BumpRetry
      modifies jobs, notifications
      ensures t == if event.Some? && event.value.name == SEND_EMAIL then HandleAlone(s, i, first, second) else s
      ensures event.None? ==> jobs.rows == old(jobs.rows) && notifications.rows == old(notifications.rows)
      ensures event.Some? ==>
                && Shows(event.value, t)
                && notifications.rows == Store(old(notifications.rows), event.value.notificationId, t.notification)
                && jobs.rows == Store(old(jobs.rows), event.value.backgroundJobId, t.row)
      ensures event.Some? ==>
        var job := event.value;
        var id, jobId, before := job.notificationId, job.backgroundJobId, old(jobs.rows);
        var ours := job.name == "send-email" && first;
        var final := job.attemptsMade >= match job.attempts case Limit(n) => (if n == 0 then 3 else n) case Unset => 3;
        && notifications.rows == (if ours && final && id in old(notifications.rows) then old(notifications.rows)[id := Failed]
                                  else old(notifications.rows))
        && jobs.rows == (if !ours || jobId !in before then before
                         else if final then
                           if second then before[jobId := JobRow(JobFailed, before[jobId].retryCount)] else before
                         else
                           before[jobId := JobRow(if second then Retrying else before[jobId].status,
                                                  before[jobId].retryCount + 1)])
    {
      t := s;
      if event.None? || event.value.name != SEND_EMAIL {
        return;
      }
      var job := event.value;
      var maxAttempts := WorkerMaxAttempts(job.attempts);
      var isFinal := job.attemptsMade >= maxAttempts;
      t := HandlerStep(t, i, first);
      if !first {
        return;
      }
      if isFinal {
        notifications.Update(job.notificationId, Failed);
        if second {
          jobs.UpdateStatus(job.backgroundJobId, JobFailed);
        }
      } else {
        jobs.IncrementRetryCount(job.backgroundJobId);
        if second {
          jobs.UpdateStatus(job.backgroundJobId, Retrying);
        }
      }
      t := HandlerStep(t, i, second);
    }
  }

  // ---- NotificationsService ----

  datatype EnqueueResult = Enqueued(bullJobId: nat) | NotEnqueued | Threw

  class NotificationsService {
    const notifications: NotificationTable
    const queueService: QueueService
    const jobs: BackgroundJobsService
    const queueName: QueueName

    constructor (notifications: NotificationTable, queueService: QueueService,
                 jobs: BackgroundJobsService, queueName: QueueName)
      ensures this.notifications == notifications && this.queueService == queueService
      ensures this.jobs == jobs && this.queueName == queueName
    {
      this.notifications := notifications;
      this.queueService := queueService;
      this.jobs := jobs;
      this.queueName := queueName;
    }

    /** The catch block around addJob. */
    method RecordEnqueueFailure(id: Id, jobId: Id, calls: EnqueueCalls, ghost s: State)
      returns (result: EnqueueResult, ghost t: State)
      requires s.producer.MarkRowFailed?
      requires Lookup(notifications.rows, id) == s.notification && Lookup(jobs.rows, jobId) == s.row
      modifies notifications, jobs
      ensures t == ProduceAlone(s, calls)
      ensures t.job == s.job
      ensures t.notification.Some? == s.notification.Some? && t.row.Some? == s.row.Some?
      ensures notifications.rows == Store(old(notifications.rows), id, t.notification)
      ensures jobs.rows == Store(old(jobs.rows), jobId, t.row)
      ensures result == if t.producer.Aborted? then Threw else NotEnqueued
      ensures result == if calls.markRowFailed && calls.markJobFailed then NotEnqueued else Threw
      ensures notifications.rows == if calls.markRowFailed && id in old(notifications.rows)
                                    then old(notifications.rows)[id := Failed] else old(notifications.rows)
      ensures jobs.rows == if calls.markRowFailed && calls.markJobFailed && jobId in old(jobs.rows)
                           then old(jobs.rows)[jobId := JobRow(JobFailed, old(jobs.rows)[jobId].retryCount)]
                           else old(jobs.rows)
    {
      t := ProducerStep(s, calls.markRowFailed);
      assert ProduceAlone(t, calls) == ProduceAlone(s, calls);
      if !calls.markRowFailed {
        return Threw, t;
      }
      notifications.Update(id, Failed);
      t := ProducerStep(t, calls.markJobFailed);
      assert ProduceAlone(t, calls) == ProduceAlone(s, calls);
      if !calls.markJobFailed {
        return Threw, t;
      }
      jobs.UpdateStatus(jobId, JobFailed);
      return NotEnqueued, t;
    }

    /** Creating the two rows. */
    method CreateRows(id: Id, jobId: Id, calls: EnqueueCalls, ghost s: State)
      returns (created: bool, ghost t: State)
      requires s.producer.CreateRow? && s.notification.None? && s.row.None?
      requires id !in notifications.rows && jobId !in jobs.rows
      modifies notifications, jobs
      ensures ProduceAlone(t, calls) == ProduceAlone(s, calls)
      ensures t == s.(producer := t.producer, notification := t.notification, row := t.row, log := t.log)
      ensures notifications.rows == Store(old(notifications.rows), id, t.notification)
      ensures jobs.rows == Store(old(jobs.rows), jobId, t.row)
      ensures if created then t.producer.AddJob? && t.notification.Some? && t.row.Some? else t.producer.Aborted?
      ensures created <==> calls.createRow && calls.createJob
      ensures notifications.rows == if calls.createRow then old(notifications.rows)[id := Draft] else old(notifications.rows)
      ensures jobs.rows == if created then old(jobs.rows)[jobId := JobRow(JobQueued, 0)] else old(jobs.rows)
    {
      t := ProducerStep(s, calls.createRow);
      assert ProduceAlone(t, calls) == ProduceAlone(s, calls);
      if !calls.createRow {
        return false, t;
      }
      notifications.rows := notifications.rows[id := Draft];
      t := ProducerStep(t, calls.createJob);
      assert ProduceAlone(t, calls) == ProduceAlone(s, calls);
      if !calls.createJob {
        return false, t;
      }
      jobs.CreateQueuedJob(jobId);
      return true, t;
    }

    /** addJob and what follows it. `calls.addJob` says whether the push itself resolves; an
        unregistered queue makes addJob throw all the same. */
    method PushJob(id: Id, jobId: Id, attachment: bool, calls: EnqueueCalls, ghost s: State)
      returns (result: EnqueueResult, ghost t: State)
      requires s.producer.AddJob? && s.job.NoJob? && s.notification.Some? && s.row.Some?
      requires Lookup(notifications.rows, id) == s.notification && Lookup(jobs.rows, jobId) == s.row
      requires id in notifications.rows && jobId in jobs.rows
      modifies notifications, jobs, queueService
      ensures t == ProduceAlone(s, calls.(addJob := calls.addJob && queueName in old(queueService.queues)))
      ensures t.notification.Some? && t.row.Some?
      ensures notifications.rows == Store(old(notifications.rows), id, t.notification)
      ensures jobs.rows == Store(old(jobs.rows), jobId, t.row)
      ensures t.job == if calls.addJob && queueName in old(queueService.queues) then Waiting(0) else NoJob
      ensures var pushed := calls.addJob && queueName in old(queueService.queues);
        && queueService.queues == (if pushed then
             old(queueService.queues)[queueName := old(queueService.queues)[queueName] +
               [QueuedJob(|old(queueService.queues)[queueName]|, "send-email", id, jobId, attachment,
                          Limit(queueService.defaultAttempts))]]
             else old(queueService.queues))
        && notifications.rows == (if pushed then
             if calls.markQueued then old(notifications.rows)[id := Queued] else old(notifications.rows)
             else if calls.markRowFailed then old(notifications.rows)[id := Failed] else old(notifications.rows))
        && jobs.rows == (if !pushed && calls.markRowFailed && calls.markJobFailed
                         then old(jobs.rows)[jobId := JobRow(JobFailed, old(jobs.rows)[jobId].retryCount)]
                         else old(jobs.rows))
        && (result.Enqueued? <==> pushed && calls.markQueued)
        && (result.NotEnqueued? <==> !pushed && calls.markRowFailed && calls.markJobFailed)
      ensures result.Threw? <==> t.producer.Aborted?
    {
      var added := queueService.AddJob(queueName, SEND_EMAIL, id, jobId, attachment, Missing, calls.addJob);
      var actual := calls.(addJob := added.Success?);
      t := ProducerStep(s, added.Success?);
      assert ProduceAlone(t, actual) == ProduceAlone(s, actual);
      if added.Failure? {
        result, t := RecordEnqueueFailure(id, jobId, actual, t);
        return;
      }
      ghost var u := t;
      t := ProducerStep(t, calls.markQueued);
      assert ProduceAlone(t, actual) == ProduceAlone(u, actual);
      if !calls.markQueued {
        return Threw, t;
      }
      notifications.Update(id, Queued);
      return Enqueued(added.value), t;
    }

    /** `id` and `jobId` are the fresh keys of the two new rows. */
    method EnqueueEmailNotification(id: Id, jobId: Id, attachment: bool, calls: EnqueueCalls)
      returns (result: EnqueueResult, ghost t: State)
      requires id !in notifications.rows && jobId !in jobs.rows
      modifies notifications, jobs, queueService
      ensures t == ProduceAlone(Init(Config(Limit(queueService.defaultAttempts), attachment), 0),
                                calls.(addJob := calls.addJob && queueName in old(queueService.queues)))
      ensures notifications.rows == Store(old(notifications.rows), id, t.notification)
      ensures jobs.rows == Store(old(jobs.rows), jobId, t.row)
      ensures var rows := calls.createRow && calls.createJob;
        var pushed := rows && calls.addJob && queueName in old(queueService.queues);
        var status := if pushed then (if calls.markQueued then Queued else Draft)
                      else if rows && calls.markRowFailed then Failed else Draft;
        var jobStatus := if !pushed && calls.markRowFailed && calls.markJobFailed then JobFailed else JobQueued;
        && notifications.rows == (if calls.createRow then old(notifications.rows)[id := status] else old(notifications.rows))
        && jobs.rows == (if rows then old(jobs.rows)[jobId := JobRow(jobStatus, 0)] else old(jobs.rows))
        && queueService.queues == (if pushed then
             old(queueService.queues)[queueName := old(queueService.queues)[queueName] +
               [QueuedJob(|old(queueService.queues)[queueName]|, "send-email", id, jobId, attachment,
                          Limit(queueService.defaultAttempts))]]
             else old(queueService.queues))
        && (result.Enqueued? <==> pushed && calls.markQueued)
        && (result.NotEnqueued? <==> rows && !pushed && calls.markRowFailed && calls.markJobFailed)
      ensures result.Threw? <==> t.producer.Aborted?
      ensures t.job == if calls.createRow && calls.createJob && calls.addJob && queueName in old(queueService.queues)
                       then Waiting(0) else NoJob
    {
      var actual := calls.(addJob := calls.addJob && queueName in queueService.queues);
      t := Init(Config(Limit(queueService.defaultAttempts), attachment), 0);
      var created;
      created, t := CreateRows(id, jobId, actual, t);
      if !created {
        return Threw, t;
      }
      result, t := PushJob(id, jobId, attachment, calls, t);
    }
  }
}
