/** QueueService.addJob: which queue a job lands on, and how many attempts it is given. */
module JobQueue {
  import opened Options

  /** `opts.attempts` as it reaches the queue; `Unset` is JavaScript's undefined. */
  datatype Attempts = Unset | Limit(n: int)

  /** The caller's `options.attempts`: the key may be missing, or present and undefined. */
  datatype AttemptsOption = Missing | Explicit(value: Attempts)

  /**
   * `{ attempts: options?.attempts ?? default, ...options }`: the trailing spread wins,
   * so a key that is present and undefined erases the default.
   */
  function JobAttempts(option: AttemptsOption, default: int): Attempts {
    match option
    case Missing => Limit(default)
    case Explicit(value) => value
  }

  /** The queue's rule after failure number `made`: hand the job out again or give up. */
  predicate RetriesAgain(attempts: Attempts, made: nat) {
    attempts.Limit? && made < attempts.n
  }

  /** `job.opts.attempts || 3` in the worker's failed-event handler. */
  function WorkerMaxAttempts(attempts: Attempts): int {
    if attempts.Limit? && attempts.n != 0 then attempts.n else 3
  }

  /** `job.attemptsMade >= maxAttempts` in the same handler. */
  predicate WorkerSaysFinal(attempts: Attempts, made: nat) {
    made >= WorkerMaxAttempts(attempts)
  }

  /** Failure number `made` can happen at all: the queue handed the job out that often. */
  predicate FailureHappens(attempts: Attempts, made: nat) {
    made == 1 || (made > 1 && RetriesAgain(attempts, made - 1))
  }

  /** The `||` treats 0 and undefined alike; every other value is passed through. */
  predicate FallbackIsHarmless(attempts: Attempts) {
    attempts.Limit? && attempts.n != 0
  }

  /** Two readings of "no more attempts", the queue's and the worker's, agree exactly when
      `attempts` is neither 0 nor undefined. */
  lemma FinalityAgreesWithQueue(attempts: Attempts)
    ensures (forall made: nat :: FailureHappens(attempts, made) ==>
               (WorkerSaysFinal(attempts, made) <==> !RetriesAgain(attempts, made)))
            <==> FallbackIsHarmless(attempts)
  {
    if !FallbackIsHarmless(attempts) {
      assert FailureHappens(attempts, 1) && !WorkerSaysFinal(attempts, 1) && !RetriesAgain(attempts, 1);
    }
  }

  /** The first failure that the queue does not retry. */
  function LastAttempt(attempts: Attempts): (last: nat)
    ensures last >= 1
    ensures FailureHappens(attempts, last) && !RetriesAgain(attempts, last)
    ensures forall made: nat :: FailureHappens(attempts, made) ==> made <= last
  {
    if attempts.Limit? && attempts.n > 1 then attempts.n else 1
  }

  type QueueName = string

  datatype QueuedJob = QueuedJob(id: nat, name: string, notificationId: string,
                                 backgroundJobId: string, attachment: bool, attempts: Attempts)

  class QueueService {
    const defaultAttempts: int
    var queues: map<QueueName, seq<QueuedJob>>

    constructor (names: set<QueueName>, defaultAttempts: int)
      ensures this.defaultAttempts == defaultAttempts
      ensures queues.Keys == names && forall n :: n in names ==> queues[n] == []
    {
      this.defaultAttempts := defaultAttempts;
      queues := map n | n in names :: [];
    }

    /** `redisUp` is whether `queue.add` resolves. */
    method AddJob(queueName: QueueName, jobName: string, notificationId: string, backgroundJobId: string,
                  attachment: bool, option: AttemptsOption, redisUp: bool)
      returns (r: Result<nat>)
      modifies this
      ensures r.Success? <==> queueName in old(queues) && redisUp
      ensures r.Failure? ==> queues == old(queues)
      ensures r.Success? ==>
                var attempts := match option case Missing => Limit(defaultAttempts) case Explicit(value) => value;
                && r.value == |old(queues)[queueName]|
                && queues == old(queues)[queueName := old(queues)[queueName] +
                     [QueuedJob(r.value, jobName, notificationId, backgroundJobId, attachment, attempts)]]
    {
      if queueName !in queues {
        return Failure("Queue is not registered.");
      }
      if !redisUp {
        return Failure("queue.add rejected");
      }
      var job := QueuedJob(|queues[queueName]|, jobName, notificationId, backgroundJobId, attachment,
                           JobAttempts(option, defaultAttempts));
      queues := queues[queueName := queues[queueName] + [job]];
      return Success(job.id);
    }
  }

  /** Which failure of a job is its last, for the queue: number n if the caller's limit n, or else
      the default n, is above 1, and number 1 otherwise. A key that is present and undefined erases
      the default: one attempt, and no failure of it is final for the worker. */
  lemma CallerDecidesAttempts(option: AttemptsOption, default: int, made: nat)
    ensures var n := match option case Missing => default case Explicit(Limit(m)) => m case Explicit(Unset) => 1;
      var attempts := JobAttempts(option, default);
      && LastAttempt(attempts) == (if n > 1 then n else 1)
      && (FailureHappens(attempts, made) ==> (!RetriesAgain(attempts, made) <==> made == if n > 1 then n else 1))
    ensures option == Explicit(Unset) && FailureHappens(JobAttempts(option, default), made) ==>
              !WorkerSaysFinal(JobAttempts(option, default), made)
  {
  }

  /** A job enqueued without an `attempts` option is retried as the configured default says,
      and the two finality rules agree on it exactly when that default is not 0. */
  lemma DefaultAttemptsAgree(default: int)
    ensures (forall made: nat :: FailureHappens(JobAttempts(Missing, default), made) ==>
               (WorkerSaysFinal(JobAttempts(Missing, default), made) <==>
                !RetriesAgain(JobAttempts(Missing, default), made)))
            <==> default != 0
  {
    FinalityAgreesWithQueue(JobAttempts(Missing, default));
  }
}
