/** The replication-slot monitor: one timestamp per slot, carried from poll to poll. */
module ReplicationSlots {
  import opened Wrappers

  datatype SlotState = SlotState(slotName: string, active: bool, walStatus: Option<string>, retainedBytes: int)

  datatype Reason = Inactive | Retention | WalStatus

  datatype Warning = Warning(slotName: string, reason: Reason)

  type MonitorState = map<string, int>

  datatype Limits = Limits(retentionWarnBytes: int, inactiveGraceMs: int)

  datatype Poll = Poll(slots: seq<SlotState>, now: int)

  // ---------------------------------------------------------------------------------------------
  // One poll
  // ---------------------------------------------------------------------------------------------

  function Since(previous: MonitorState, slotName: string, now: int): int {
    if slotName in previous then previous[slotName] else now
  }

  predicate WalTrouble(slot: SlotState) {
    slot.walStatus == Some("unreserved") || slot.walStatus == Some("lost")
  }

  function WarningsFor(slot: SlotState, previous: MonitorState, now: int, limits: Limits): seq<Warning> {
    (if !slot.active then
       if now - Since(previous, slot.slotName, now) >= limits.inactiveGraceMs then [Warning(slot.slotName, Inactive)] else []
     else if slot.retainedBytes >= limits.retentionWarnBytes then [Warning(slot.slotName, Retention)]
     else [])
    + if WalTrouble(slot) then [Warning(slot.slotName, WalStatus)] else []
  }

  function StateAfter(slots: seq<SlotState>, previous: MonitorState, now: int): MonitorState {
    if slots == [] then map[]
    else
      var before, slot := StateAfter(slots[..|slots| - 1], previous, now), slots[|slots| - 1];
      if slot.active then before else before[slot.slotName := Since(previous, slot.slotName, now)]
  }

  function WarningsOf(slots: seq<SlotState>, previous: MonitorState, now: int, limits: Limits): seq<Warning> {
    if slots == [] then []
    else WarningsOf(slots[..|slots| - 1], previous, now, limits)
         + WarningsFor(slots[|slots| - 1], previous, now, limits)
  }

  /** `observeSlots`. */
  method ObserveSlots(slots: seq<SlotState>, previous: MonitorState, now: int, limits: Limits)
    returns (warnings: seq<Warning>, state: MonitorState)
    ensures state == StateAfter(slots, previous, now)
    ensures warnings == WarningsOf(slots, previous, now, limits)
  {
    state, warnings := map[], [];
    for i := 0 to |slots|
      invariant state == StateAfter(slots[..i], previous, now)
      invariant warnings == WarningsOf(slots[..i], previous, now, limits)
    {
      assert slots[..i + 1][..i] == slots[..i];
      var slot := slots[i];
      ghost var before := warnings;
      if !slot.active {
        var since := if slot.slotName in previous then previous[slot.slotName] else now;
        state := state[slot.slotName := since];
        if now - since >= limits.inactiveGraceMs {
          warnings := warnings + [Warning(slot.slotName, Inactive)];
        }
      } else if slot.retainedBytes >= limits.retentionWarnBytes {
        warnings := warnings + [Warning(slot.slotName, Retention)];
      }
      if WalTrouble(slot) {
        warnings := warnings + [Warning(slot.slotName, WalStatus)];
      }
      assert warnings == before + WarningsFor(slot, previous, now, limits);
    }
    assert slots[..|slots|] == slots;
  }

  // ---------------------------------------------------------------------------------------------
  // The history of polls. A failed poll changes nothing, so it is not part of the history.
  // ---------------------------------------------------------------------------------------------

  /** A poll of the worker: it read the slots, or the read failed. */
  datatype Attempt = Read(poll: Poll) | Failed

  function StateAfterAttempts(attempts: seq<Attempt>): MonitorState {
    if attempts == [] then map[]
    else
      var before := StateAfterAttempts(attempts[..|attempts| - 1]);
      match attempts[|attempts| - 1]
      case Failed => before
      case Read(poll) => StateAfter(poll.slots, before, poll.now)
  }

  function Successful(attempts: seq<Attempt>): seq<Poll> {
    if attempts == [] then []
    else
      var before := Successful(attempts[..|attempts| - 1]);
      match attempts[|attempts| - 1]
      case Failed => before
      case Read(poll) => before + [poll]
  }

  /** The poll saw the slot, and saw it inactive. */
  predicate SawInactive(poll: Poll, slotName: string) {
    exists slot :: slot in poll.slots && slot.slotName == slotName && !slot.active
  }

  /** From `start` on every poll saw the slot inactive, and the one before, if any, did not. */
  ghost predicate InactiveRun(polls: seq<Poll>, slotName: string, start: int) {
    && 0 <= start < |polls|
    && (forall k :: start <= k < |polls| ==> SawInactive(polls[k], slotName))
    && (start > 0 ==> !SawInactive(polls[start - 1], slotName))
  }

  lemma {:induction false} StateAfterKeys(slots: seq<SlotState>, previous: MonitorState, now: int, slotName: string)
    ensures slotName in StateAfter(slots, previous, now) <==> SawInactive(Poll(slots, now), slotName)
    ensures slotName in StateAfter(slots, previous, now) ==>
      StateAfter(slots, previous, now)[slotName] == Since(previous, slotName, now)
    decreases |slots|
  {
    if slots != [] {
      var front, last := slots[..|slots| - 1], slots[|slots| - 1];
      StateAfterKeys(front, previous, now, slotName);
      assert forall slot :: slot in slots <==> slot in front || slot == last;
      assert SawInactive(Poll(slots, now), slotName) <==>
        SawInactive(Poll(front, now), slotName) || (last.slotName == slotName && !last.active);
    }
  }

  function StateAfterPolls(polls: seq<Poll>): MonitorState {
    if polls == [] then map[]
    else
      var poll := polls[|polls| - 1];
      StateAfter(poll.slots, StateAfterPolls(polls[..|polls| - 1]), poll.now)
  }

  lemma {:induction false} FailuresChangeNothing(attempts: seq<Attempt>)
    ensures StateAfterAttempts(attempts) == StateAfterPolls(Successful(attempts))
    decreases |attempts|
  {
    if attempts != [] {
      FailuresChangeNothing(attempts[..|attempts| - 1]);
    }
  }

  /**
   The monitor refines its history: a slot has a timestamp exactly when the latest poll saw it
   inactive, and that is the time of the first poll of its current unbroken inactive run.
   */
  lemma {:induction false} TimestampIsRunStart(polls: seq<Poll>, slotName: string)
    ensures slotName in StateAfterPolls(polls) <==> exists start :: InactiveRun(polls, slotName, start)
    ensures forall start :: InactiveRun(polls, slotName, start) ==> StateAfterPolls(polls)[slotName] == polls[start].now
    decreases |polls|
  {
    if polls != [] {
      var front, last := polls[..|polls| - 1], polls[|polls| - 1];
      TimestampIsRunStart(front, slotName);
      StateAfterKeys(last.slots, StateAfterPolls(front), last.now, slotName);
      if SawInactive(last, slotName) {
        LongerRun(polls, slotName);
      }
    }
  }

  /** Over any attempts, failed ones included: the monitor's state is the run starts of what was read. */
  lemma MonitorRefinesHistory(attempts: seq<Attempt>, slotName: string)
    ensures
      var (state, polls) := (StateAfterAttempts(attempts), Successful(attempts));
      && (slotName in state <==> exists start :: InactiveRun(polls, slotName, start))
      && (forall start :: InactiveRun(polls, slotName, start) ==> state[slotName] == polls[start].now)
  {
    FailuresChangeNothing(attempts);
    TimestampIsRunStart(Successful(attempts), slotName);
  }

  lemma LongerRun(polls: seq<Poll>, slotName: string)
    requires polls != [] && SawInactive(polls[|polls| - 1], slotName)
    ensures
      var front := polls[..|polls| - 1];
      && (forall start :: InactiveRun(front, slotName, start) ==> InactiveRun(polls, slotName, start))
      && (forall start :: InactiveRun(polls, slotName, start) && start < |front| ==> InactiveRun(front, slotName, start))
      && ((forall start :: !InactiveRun(front, slotName, start)) ==> InactiveRun(polls, slotName, |front|))
      && (InactiveRun(polls, slotName, |front|) ==> forall start :: !InactiveRun(front, slotName, start))
  {
    var front := polls[..|polls| - 1];
    if (forall start :: !InactiveRun(front, slotName, start)) && front != [] && SawInactive(front[|front| - 1], slotName) {
      var start := RunStart(front, slotName);
    }
  }

  lemma {:induction false} RunStart(polls: seq<Poll>, slotName: string) returns (start: nat)
    requires polls != [] && SawInactive(polls[|polls| - 1], slotName)
    ensures InactiveRun(polls, slotName, start)
    decreases |polls|
  {
    var front := polls[..|polls| - 1];
    if front != [] && SawInactive(front[|front| - 1], slotName) {
      start := RunStart(front, slotName);
    } else {
      start := |front|;
    }
  }

  lemma {:induction false} WarningsMember(slots: seq<SlotState>, previous: MonitorState, now: int, limits: Limits, warning: Warning)
    ensures warning in WarningsOf(slots, previous, now, limits) <==>
      exists slot :: slot in slots && warning in WarningsFor(slot, previous, now, limits)
    decreases |slots|
  {
    if slots != [] {
      var front, last := slots[..|slots| - 1], slots[|slots| - 1];
      WarningsMember(front, previous, now, limits, warning);
      assert forall slot :: slot in slots <==> slot in front || slot == last;
    }
  }

  /**
   The latest poll warns that a slot is inactive exactly when its current unbroken inactive run has
   lasted at least the grace period.
   */
  lemma WarnsAfterGrace(polls: seq<Poll>, slotName: string, limits: Limits)
    requires polls != []
    ensures
      var poll := polls[|polls| - 1];
      var previous := StateAfterPolls(polls[..|polls| - 1]);
      Warning(slotName, Inactive) in WarningsOf(poll.slots, previous, poll.now, limits) <==>
        exists start :: InactiveRun(polls, slotName, start) && poll.now - polls[start].now >= limits.inactiveGraceMs
  {
    var poll := polls[|polls| - 1];
    var previous := StateAfterPolls(polls[..|polls| - 1]);
    WarningsMember(poll.slots, previous, poll.now, limits, Warning(slotName, Inactive));
    TimestampIsRunStart(polls, slotName);
    StateAfterKeys(poll.slots, previous, poll.now, slotName);
    forall slot | slot in poll.slots
      ensures Warning(slotName, Inactive) in WarningsFor(slot, previous, poll.now, limits) <==>
        slot.slotName == slotName && !slot.active && poll.now - Since(previous, slotName, poll.now) >= limits.inactiveGraceMs
    {
    }
  }

  /** The other two warnings look at the latest poll alone: neither has a grace period. */
  lemma WarnsAtOnce(slots: seq<SlotState>, previous: MonitorState, now: int, limits: Limits, slotName: string)
    ensures Warning(slotName, Retention) in WarningsOf(slots, previous, now, limits) <==>
      exists slot :: slot in slots && slot.slotName == slotName && slot.active && slot.retainedBytes >= limits.retentionWarnBytes
    ensures Warning(slotName, WalStatus) in WarningsOf(slots, previous, now, limits) <==>
      exists slot :: slot in slots && slot.slotName == slotName && slot.walStatus in {Some("unreserved"), Some("lost")}
  {
    WarningsMember(slots, previous, now, limits, Warning(slotName, Retention));
    WarningsMember(slots, previous, now, limits, Warning(slotName, WalStatus));
    forall slot | slot in slots
      ensures Warning(slotName, Retention) in WarningsFor(slot, previous, now, limits) <==>
        slot.slotName == slotName && slot.active && slot.retainedBytes >= limits.retentionWarnBytes
      ensures Warning(slotName, WalStatus) in WarningsFor(slot, previous, now, limits) <==>
        slot.slotName == slotName && slot.walStatus in {Some("unreserved"), Some("lost")}
    {
      WarningsOfSlot(slot, previous, now, limits, slotName);
    }
  }

  lemma WarningsOfSlot(slot: SlotState, previous: MonitorState, now: int, limits: Limits, slotName: string)
    ensures Warning(slotName, Retention) in WarningsFor(slot, previous, now, limits) <==>
      slot.slotName == slotName && slot.active && slot.retainedBytes >= limits.retentionWarnBytes
    ensures Warning(slotName, WalStatus) in WarningsFor(slot, previous, now, limits) <==>
      slot.slotName == slotName && slot.walStatus in {Some("unreserved"), Some("lost")}
  {
  }

  // ---------------------------------------------------------------------------------------------
  // The worker's state between polls
  // ---------------------------------------------------------------------------------------------

  class SlotMonitor {
    var state: MonitorState
    ghost var history: seq<Attempt>

    ghost predicate Valid()
      reads this
    {
      state == StateAfterAttempts(history)
    }

    constructor ()
      ensures Valid() && history == []
    {
      state, history := map[], [];
    }

    /** `poll`: read the slots, observe them, keep the state; on a failed read keep the old one. */
    method RunPoll(attempt: Attempt, limits: Limits) returns (warnings: seq<Warning>)
      requires Valid()
      modifies this
      ensures Valid() && history == old(history) + [attempt]
      ensures warnings == if attempt.Failed? then []
                          else WarningsOf(attempt.poll.slots, old(state), attempt.poll.now, limits)
    {
      if attempt.Failed? {
        warnings := [];
      } else {
        warnings, state := ObserveSlots(attempt.poll.slots, state, attempt.poll.now, limits);
      }
      history := history + [attempt];
      assert history[..|history| - 1] == old(history);
    }
  }
}
