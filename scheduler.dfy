/**
 * The plugin's daily job as the host's scheduled-event store sees it. The
 * store is reduced to one piece of state: whether an event for the
 * 'user_deleter' hook is pending. Its start time and the act of firing it
 * belong to the host.
 */
module Scheduler {

  /** The host's scheduled-event store, restricted to the plugin's hook. */
  class Cron {
    var pending: bool
    /** How many times an event has been registered for the hook so far. */
    ghost var registrations: nat

    constructor (pending: bool)
      ensures this.pending == pending && registrations == 0
    {
      this.pending := pending;
      registrations := 0;
    }

    /** wp_next_scheduled: whether an event for the hook is pending. */
    method NextScheduled() returns (found: bool)
      ensures found == pending
    {
      found := pending;
    }

    /** wp_schedule_event with the daily recurrence. */
    method ScheduleDaily()
      modifies this
      ensures pending && registrations == old(registrations) + 1
    {
      pending := true;
      registrations := registrations + 1;
    }

    /** wp_clear_scheduled_hook: no event for the hook is left pending. */
    method ClearScheduledHook()
      modifies this
      ensures !pending && registrations == old(registrations)
    {
      pending := false;
    }
  }

  /** What drives the plugin's scheduling: a request on which the host runs
      its 'wp' action, or the plugin's deactivation. */
  datatype Trigger = Request | Deactivation

  /** Whether an event is pending after the plugin handles `t`; it does not
      depend on whether one was pending before. */
  function Next(t: Trigger): bool
  {
    match t
    case Request => true
    case Deactivation => false
  }

  /** Whether handling `t` registers a new event. */
  predicate Registers(pending: bool, t: Trigger)
  {
    t == Request && !pending
  }

  /** Whether an event is pending after the plugin handles every trigger of `ts` in turn. */
  function Run(pending: bool, ts: seq<Trigger>): bool
    decreases |ts|
  {
    if ts == [] then pending else Run(Next(ts[0]), ts[1..])
  }

  /** How many events the plugin registers while handling `ts`. */
  function Registrations(pending: bool, ts: seq<Trigger>): nat
    decreases |ts|
  {
    if ts == [] then 0
    else (if Registers(pending, ts[0]) then 1 else 0) + Registrations(Next(ts[0]), ts[1..])
  }

  function Deactivations(ts: seq<Trigger>): nat
  {
    if ts == [] then 0 else (if ts[0] == Deactivation then 1 else 0) + Deactivations(ts[1..])
  }

  /** The event is pending exactly when the last trigger was a request. */
  lemma {:induction false} RunFollowsLastTrigger(pending: bool, ts: seq<Trigger>)
    ensures ts == [] ==> Run(pending, ts) == pending
    ensures ts != [] ==> (Run(pending, ts) <==> ts[|ts| - 1] == Request)
    decreases |ts|
  {
    if ts != [] {
      RunFollowsLastTrigger(Next(ts[0]), ts[1..]);
      if |ts| > 1 {
        assert ts[1..][|ts[1..]| - 1] == ts[|ts| - 1];
      }
    }
  }

  /** Requests never stack up events: between two deactivations at most one
      event is registered, and none while one is already pending. */
  lemma {:induction false} RegistrationsBounded(pending: bool, ts: seq<Trigger>)
    ensures Registrations(pending, ts) + (if pending then 1 else 0) <= 1 + Deactivations(ts)
    decreases |ts|
  {
    if ts != [] {
      RegistrationsBounded(Next(ts[0]), ts[1..]);
    }
  }

  /** From no pending event, any run of requests without a deactivation
      registers exactly one event. */
  lemma {:induction false} RequestsRegisterOnce(ts: seq<Trigger>)
    requires Deactivations(ts) == 0 && Request in ts
    ensures Registrations(false, ts) == 1
  {
    assert ts[0] == Request;
    RegistrationsBounded(true, ts[1..]);
  }
}
