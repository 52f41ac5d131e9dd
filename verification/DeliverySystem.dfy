/** Any number of notifications, begun at any time and interleaved in any order. */
module DeliverySystem {
  import opened Options
  import opened JobQueue
  import opened DeliveryProtocol
  import opened DeliveryOutcomes
  import opened DeliveryTheorems

  type Id = string

  /** `outbox` lists the notification of every mail that went out, in order. */
  datatype System = System(flows: map<Id, State>, outbox: seq<Id>)

  datatype Event = Begin(id: Id, config: Config, redeliveries: nat) | Step(id: Id, action: Action)

  const IDLE := System(map[], [])

  predicate Possible(sys: System, e: Event) {
    match e
    case Begin(id, _, _) => id !in sys.flows
    case Step(id, action) => id in sys.flows && Enabled(sys.flows[id], action)
  }

  function Happen(sys: System, e: Event): System
    requires Possible(sys, e)
  {
    match e
    case Begin(id, config, redeliveries) => sys.(flows := sys.flows[id := Init(config, redeliveries)])
    case Step(id, action) =>
      var s := sys.flows[id];
      var t := Next(s, action);
      System(sys.flows[id := t], if t.log.sends > s.log.sends then sys.outbox + [id] else sys.outbox)
  }

  predicate PossibleAll(sys: System, events: seq<Event>)
    decreases |events|
  {
    events == [] || (Possible(sys, events[0]) && PossibleAll(Happen(sys, events[0]), events[1..]))
  }

  function HappenAll(sys: System, events: seq<Event>): System
    requires PossibleAll(sys, events)
    decreases |events|
  {
    if events == [] then sys else HappenAll(Happen(sys, events[0]), events[1..])
  }

  /** `s` is where some run of a single notification ends. */
  ghost predicate Reached(s: State) {
    exists redeliveries: nat, run: seq<Action> ::
      Legal(Init(s.config, redeliveries), run) && Exec(Init(s.config, redeliveries), run) == s
  }

  lemma InitReached(config: Config, redeliveries: nat)
    ensures Reached(Init(config, redeliveries))
  {
    assert Legal(Init(config, redeliveries), []) && Exec(Init(config, redeliveries), []) == Init(config, redeliveries);
  }

  lemma StepReached(s: State, a: Action)
    requires Reached(s) && Enabled(s, a)
    ensures Reached(Next(s, a))
  {
    var redeliveries: nat, run: seq<Action> :|
      Legal(Init(s.config, redeliveries), run) && Exec(Init(s.config, redeliveries), run) == s;
    var longer := Extend(Init(s.config, redeliveries), run, a);
    StepSpendsRedeliveries(s, a);
  }

  /** Each flow is a run of its own, and the outbox holds one entry for each of its sends. */
  ghost predicate Independent(sys: System) {
    && (forall id :: id in sys.flows ==> Reached(sys.flows[id]))
    && (forall id :: multiset(sys.outbox)[id] == if id in sys.flows then sys.flows[id].log.sends else 0)
  }

  lemma OutboxCounts(sys: System, id: Id, t: State)
    requires Independent(sys) && id in sys.flows && Reached(t)
    requires sys.flows[id].log.sends <= t.log.sends <= sys.flows[id].log.sends + 1
    ensures Independent(System(sys.flows[id := t],
                               if t.log.sends > sys.flows[id].log.sends then sys.outbox + [id] else sys.outbox))
  {}

  lemma BeginKeepsIndependent(sys: System, id: Id, s: State)
    requires Independent(sys) && id !in sys.flows && Reached(s) && s.log.sends == 0
    ensures Independent(sys.(flows := sys.flows[id := s]))
  {}

  lemma EventKeepsIndependent(sys: System, e: Event)
    requires Independent(sys) && Possible(sys, e)
    ensures Independent(Happen(sys, e))
  {
    match e
    case Begin(id, config, redeliveries) =>
      InitReached(config, redeliveries);
      BeginKeepsIndependent(sys, id, Init(config, redeliveries));
    case Step(id, action) =>
      StepReached(sys.flows[id], action);
      StepSpendsRedeliveries(sys.flows[id], action);
      OutboxCounts(sys, id, Next(sys.flows[id], action));
  }

  lemma {:induction false} EventsKeepIndependent(sys: System, events: seq<Event>)
    requires Independent(sys) && PossibleAll(sys, events)
    ensures Independent(HappenAll(sys, events))
    decreases |events|
  {
    if events != [] {
      EventKeepsIndependent(sys, events[0]);
      EventsKeepIndependent(Happen(sys, events[0]), events[1..]);
    }
  }

  /** The duplicate bound, per notification, over every history of the whole system; a mail
      that belongs to no notification is never sent. */
  lemma OutboxIsBounded(events: seq<Event>, id: Id)
    requires PossibleAll(IDLE, events)
    ensures var sys := HappenAll(IDLE, events);
      if id in sys.flows then
        var log := sys.flows[id].log;
        && multiset(sys.outbox)[id] <= 1 + log.failedSentMarks + log.deathsAfterSend + (if log.late then 1 else 0)
        && log.runs <= LastAttempt(sys.flows[id].config.attempts) + log.deaths
      else multiset(sys.outbox)[id] == 0
  {
    EventsKeepIndependent(IDLE, events);
    var sys := HappenAll(IDLE, events);
    if id in sys.flows {
      var s := sys.flows[id];
      var redeliveries: nat, run: seq<Action> :|
        Legal(Init(s.config, redeliveries), run) && Exec(Init(s.config, redeliveries), run) == s;
      SendsAreBounded(s.config, redeliveries, run);
    }
  }

  /** At every point of every history, whatever failed: a row that reads SENT means that its mail
      is in the outbox, and a row of an enqueued mail is what its flow's log explains. */
  lemma SentMeansDelivered(events: seq<Event>, id: Id)
    requires PossibleAll(IDLE, events) && id in HappenAll(IDLE, events).flows
    requires !HappenAll(IDLE, events).flows[id].job.NoJob?
    ensures var sys := HappenAll(IDLE, events);
      && (sys.flows[id].notification == Some(Sent) ==> id in sys.outbox)
      && sys.flows[id].notification == Some(ExplainedStatus(sys.flows[id].log))
  {
    EventsKeepIndependent(IDLE, events);
    var sys := HappenAll(IDLE, events);
    var s := sys.flows[id];
    var redeliveries: nat, run: seq<Action> :|
      Legal(Init(s.config, redeliveries), run) && Exec(Init(s.config, redeliveries), run) == s;
    NotificationOutcome(s.config, redeliveries, run);
    assert id in multiset(sys.outbox) <==> id in sys.outbox;
  }

  /** For a flow at rest with nothing lost, no worker death, no late QUEUED and `attempts` neither
      0 nor undefined, the notification table alone tells who got the mail, and nobody got it
      twice. That deaths must be excluded is SentTellsIff. */
  lemma TableTellsWhoGotMail(events: seq<Event>, id: Id)
    requires PossibleAll(IDLE, events) && id in HappenAll(IDLE, events).flows
    requires var s := HappenAll(IDLE, events).flows[id];
      Quiescent(s) && s.job.Finished? && s.log.deaths == 0 && s.log.lostWrites == 0 && !s.log.late
      && FallbackIsHarmless(s.config.attempts)
    ensures var sys := HappenAll(IDLE, events);
      && multiset(sys.outbox)[id] == (if sys.flows[id].notification == Some(Sent) then 1 else 0)
      && sys.flows[id].notification == Some(if id in sys.outbox then Sent else Failed)
  {
    EventsKeepIndependent(IDLE, events);
    var sys := HappenAll(IDLE, events);
    var s := sys.flows[id];
    var redeliveries: nat, run: seq<Action> :|
      Legal(Init(s.config, redeliveries), run) && Exec(Init(s.config, redeliveries), run) == s;
    DeathFreeOutcome(s.config, redeliveries, run);
    assert id in multiset(sys.outbox) <==> id in sys.outbox;
  }
}
