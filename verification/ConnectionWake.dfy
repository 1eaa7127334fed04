/** The wake channel a module's connection loop sleeps on (src/core/connection_wake.h).

    `Wait` is modelled from the moment the blocked thread holds the mutex again: whatever
    ended the block (a timeout, a trigger, queued work or a stop), the reason it reports and
    what it does to the trigger flag depend only on what holds at that moment. */
module ConnectionWakes {
  datatype Reason = Timeout | Triggered | CommandPending | StopRequested

  /** The reason a wait reports and the trigger flag it leaves behind. */
  function WaitOutcome(requested: bool, stop: bool, workPending: bool): (r: (Reason, bool))
    ensures stop ==> r == (StopRequested, requested)
    ensures !stop && requested ==> r == (Triggered, false)
    ensures !stop && !requested ==> r.0 in {CommandPending, Timeout} && !r.1
    ensures r.0 == CommandPending <==> !stop && !requested && workPending
  {
    if stop then (StopRequested, requested)
    else if requested then (Triggered, false)
    else if workPending then (CommandPending, false)
    else (Timeout, false)
  }

  class ConnectionWake {
    var requested: bool

    constructor ()
      ensures !requested
    {
      requested := false;
    }

    method Trigger()
      modifies this
      ensures requested
    {
      requested := true;
    }

    /** For a caller that already holds the mutex. */
    method ClearTriggerLocked()
      modifies this
      ensures !requested
    {
      requested := false;
    }

    method Wait(stop: bool, workPending: bool) returns (reason: Reason)
      modifies this
      ensures (reason, requested) == WaitOutcome(old(requested), stop, workPending)
    {
      if stop {
        return StopRequested;
      }
      if requested {
        requested := false;
        return Triggered;
      }
      if workPending {
        return CommandPending;
      }
      return Timeout;
    }
  }
}
