/** No reconnect request of the Harmony connection is lost, and each is answered in time
    (src/core/harmony_connection.cpp). */
module HarmonyReconnects {
  import opened ConnectionWakes
  import opened HarmonyProtocol

  /** From here the loop reaches the next read of the setting (or ends) without waiting. */
  predicate Heading(w: Worker) {
    match w.pc
    case Top | ReadHost | CloseSocket | ReportAbort | DrainQueue | ReportDrained | Stopped => true
    case SwapQueue | SendNext | BatchEnd => w.reason == Triggered
    case _ => false
  }

  ghost predicate TriggerInv(s: State) {
    && (s.sh.locked <==> s.w.pc.RereadHost? || s.w.pc.DiscardTrigger?)
    && (s.w.pc == DiscardTrigger && s.w.satisfied ==> !s.l.owed)
    && (s.l.owed ==> s.sh.setting != s.w.host)
    && (s.l.owed ==> s.sh.requested || Heading(s.w))
  }

  /** The loop's actions on the way to a connection, and the ones over an open connection. */
  predicate Connecting(pc: Pc) {
    match pc
    case Top | ReadHost | ClearQueue | ReportCleared | IdleSleep | Connect | RetrySleep => true
    case LockWake | RereadHost | DiscardTrigger => true
    case _ => false
  }

  lemma TriggerInvConnecting(s: State, ok: bool, clock: int)
    requires TriggerInv(s) && Connecting(s.w.pc)
    ensures TriggerInv(LoopStep(s, ok, clock))
  {
  }

  lemma TriggerInvSend(s: State, ok: bool)
    requires TriggerInv(s) && s.w.pc == SendNext && s.w.batch != []
    ensures TriggerInv(SendStep(s, ok))
  {
  }

  lemma TriggerInvConnected(s: State, ok: bool, clock: int)
    requires TriggerInv(s) && !Connecting(s.w.pc)
    ensures TriggerInv(LoopStep(s, ok, clock))
  {
    if s.w.pc == SendNext && s.w.batch != [] {
      TriggerInvSend(s, ok);
    }
  }

  lemma TriggerInvStep(s: State, e: Event)
    requires TriggerInv(s)
    ensures TriggerInv(Apply(s, e))
  {
    if e.Loop? {
      if Connecting(s.w.pc) {
        TriggerInvConnecting(s, e.ok, e.clock);
      } else {
        TriggerInvConnected(s, e.ok, e.clock);
      }
    }
  }

  lemma {:induction false} TriggerInvRun(s: State, events: seq<Event>)
    requires TriggerInv(s)
    ensures TriggerInv(Run(s, events))
    decreases |events|
  {
    if events != [] {
      TriggerInvStep(s, events[0]);
      TriggerInvRun(Apply(s, events[0]), events[1..]);
    }
  }

  /** `owed` is set by a TriggerReconnect made while the stored hub differs from the one the loop
      last read, and stays set until the loop reads again or that hub is stored back. In every
      interleaving an owed request is still flagged or has already sent the loop on its way to
      that read; in particular a loop asleep still has it flagged. */
  lemma NoLostReconnect(maxAge: int, setting: Hub, events: seq<Event>)
    ensures var t := Run(Init(maxAge, setting), events);
            && (t.l.owed ==> t.sh.requested || Heading(t.w))
            && (t.l.owed && (t.w.pc.InnerWait? || t.w.pc.IdleSleep? || t.w.pc.RetrySleep?) ==> t.sh.requested)
  {
    TriggerInvRun(Init(maxAge, setting), events);
  }

  /** Loop actions left before the setting is read, on the way there. */
  function StepsToRead(s: State): nat {
    match s.w.pc
    case ReadHost => 0
    case Top => 1
    case CloseSocket => 2
    case ReportAbort | BatchEnd => 3
    case SendNext => 4 + |s.w.batch|
    case SwapQueue => 5 + |s.sh.pending|
    case ReportDrained => 1
    case DrainQueue => 2
    case _ => 0
  }

  /** What an action of a loop on its way to the read does: the read itself answers the request, a
      stop ends the loop, and anything else brings the read nearer. */
  predicate Nearer(s: State, t: State) {
    if s.w.pc == ReadHost then !t.l.owed && t.w.host == s.sh.setting
    else if s.w.pc == Stopped then t == s
    else Heading(t.w) && (StepsToRead(t) < StepsToRead(s) || (s.w.pc == Top && s.sh.stop))
  }

  lemma HeadingSends(s: State, ok: bool)
    requires Heading(s.w) && s.w.pc == SendNext && s.w.batch != []
    ensures Nearer(s, SendStep(s, ok))
  {
    assert |s.w.batch[1..]| < |s.w.batch|;
  }

  lemma HeadingArrivesOpen(s: State, ok: bool, clock: int)
    requires Heading(s.w) && !Connecting(s.w.pc)
    ensures Nearer(s, LoopStep(s, ok, clock))
  {
    if s.w.pc == SendNext && s.w.batch != [] {
      HeadingSends(s, ok);
    }
  }

  /** A loop on its way to the read spends every action getting there: it never waits again first, and
      a queue that overflows never pushes the read further away. */
  lemma HeadingArrives(s: State, ok: bool, clock: int)
    requires Heading(s.w)
    ensures Nearer(s, LoopStep(s, ok, clock))
  {
    if !Connecting(s.w.pc) {
      HeadingArrivesOpen(s, ok, clock);
    }
  }

  /** A reconnect request is flagged, and owed if the stored hub is not the loop's own; it stops being owed
      only when the loop reads the setting or its own hub is stored back. */
  lemma OwedFromTriggerToRead(s: State, e: Event)
    ensures e == TriggerReconnect && !s.sh.locked ==>
              Apply(s, e).sh.requested && (s.sh.setting != s.w.host ==> Apply(s, e).l.owed)
    ensures s.l.owed && !Apply(s, e).l.owed ==>
              (e.Loop? && s.w.pc == ReadHost) || e == WriteSetting(s.w.host)
  {
    if e.Loop? && s.w.pc != ReadHost {
      LoopKeepsOwed(s, e.ok, e.clock);
    }
  }

  lemma LoopKeepsOwed(s: State, ok: bool, clock: int)
    requires s.w.pc != ReadHost
    ensures LoopStep(s, ok, clock).l.owed == s.l.owed
  {
  }

  // ---- an owed request is answered in time ----

  /** How many actions at most the loop takes from here to the next read while a request is owed. */
  const MAX_ACTIONS_TO_READ := 32 + MAX_PENDING_COMMANDS

  function ActionsToRead(s: State): nat {
    if Heading(s.w) then StraightToRead(s.w.pc, |s.w.batch|) else ToRead(s.w.pc, |s.w.batch|)
  }

  function StraightToRead(pc: Pc, batch: nat): nat {
    match pc
    case ReadHost => 1
    case Top => 2
    case CloseSocket => 3
    case ReportAbort | BatchEnd => 4
    case SendNext => 5 + batch
    case SwapQueue => 6 + MAX_PENDING_COMMANDS
    case _ => 0
  }

  /** By way of the next wait, which consumes the request. */
  function ToRead(pc: Pc, batch: nat): nat {
    var wait := 7 + MAX_PENDING_COMMANDS;
    match pc
    case InnerTop => wait + 1
    case Probe | DiscardTrigger => wait + 2
    case BatchEnd | RereadHost => wait + 3
    case SendNext => wait + 4 + batch
    case LockWake => wait + 4
    case Connect => wait + 5
    case ReportCleared => wait + 6
    case ClearQueue => wait + 7
    case SwapQueue => wait + 5 + MAX_PENDING_COMMANDS
    case _ => wait
  }

  /** A stopping loop was asked to, and neither the queue nor a batch outgrows the cap. */
  predicate LoopInv(s: State) {
    && (s.w.pc.DrainQueue? || s.w.pc.ReportDrained? || s.w.pc.Stopped? ==> s.sh.stop)
    && |s.sh.pending| <= MAX_PENDING_COMMANDS
    && |s.w.batch| <= MAX_PENDING_COMMANDS
  }

  lemma SendShrinks(s: State, ok: bool)
    requires s.w.batch != []
    ensures var batch := SendStep(s, ok).w.batch;
            |batch| < |s.w.batch| && forall c :: c in batch ==> c in s.w.batch
    ensures SendStep(s, ok).w.pc == SendNext || SendStep(s, ok).w.pc == ReportAbort || s.w.pc != SendNext
  {
  }

  lemma LoopInvLoop(s: State, ok: bool, clock: int)
    requires LoopInv(s)
    ensures LoopInv(LoopStep(s, ok, clock))
  {
    if s.w.pc == SendNext && s.w.batch != [] {
      SendShrinks(s, ok);
      assert LoopStep(s, ok, clock).sh == s.sh;
    } else if Connecting(s.w.pc) {
      LoopInvConnecting(s, ok, clock);
    } else {
      LoopInvOpen(s, ok, clock);
    }
  }

  lemma LoopInvConnecting(s: State, ok: bool, clock: int)
    requires LoopInv(s) && Connecting(s.w.pc)
    ensures LoopInv(LoopStep(s, ok, clock))
  {
  }

  lemma LoopInvOpen(s: State, ok: bool, clock: int)
    requires LoopInv(s) && !Connecting(s.w.pc) && (s.w.pc == SendNext ==> s.w.batch == [])
    ensures LoopInv(LoopStep(s, ok, clock))
  {
  }

  lemma {:induction false} LoopInvRun(s: State, events: seq<Event>)
    requires LoopInv(s)
    ensures LoopInv(Run(s, events))
    decreases |events|
  {
    if events != [] {
      if events[0].Loop? {
        LoopInvLoop(s, events[0].ok, events[0].clock);
      }
      LoopInvRun(Apply(s, events[0]), events[1..]);
    }
  }

  lemma NearerStraight(s: State, ok: bool, clock: int)
    requires LoopInv(s) && s.l.owed && !s.sh.stop && Heading(s.w) && !Connecting(s.w.pc)
    requires s.w.pc != SendNext || s.w.batch == []
    ensures var t := LoopStep(s, ok, clock);
            !t.sh.stop && Heading(t.w) && StraightToRead(t.w.pc, |t.w.batch|) < StraightToRead(s.w.pc, |s.w.batch|)
  {
  }

  lemma NearerOpen(s: State, ok: bool, clock: int)
    requires TriggerInv(s) && LoopInv(s) && s.l.owed && !s.sh.stop && !Heading(s.w) && !Connecting(s.w.pc)
    requires s.w.pc != SendNext || s.w.batch == []
    ensures var t := LoopStep(s, ok, clock); !t.sh.stop && ActionsToRead(t) < ActionsToRead(s)
  {
  }

  lemma NearerSending(s: State, ok: bool)
    requires s.l.owed && !s.sh.stop && s.w.pc == SendNext && s.w.batch != []
    ensures var t := SendStep(s, ok); !t.sh.stop && ActionsToRead(t) < ActionsToRead(s)
  {
  }

  lemma NearerConnecting(s: State, ok: bool, clock: int)
    requires TriggerInv(s) && LoopInv(s) && s.l.owed && !s.sh.stop && Connecting(s.w.pc)
    ensures var t := LoopStep(s, ok, clock); !t.sh.stop && (t.l.owed ==> ActionsToRead(t) < ActionsToRead(s))
  {
  }

  /** Every action of the loop brings it nearer to the read, and no other thread puts it off. */
  lemma NearerStep(s: State, e: Event)
    requires TriggerInv(s) && LoopInv(s) && s.l.owed && !s.sh.stop && !e.RequestStop?
    ensures var t := Apply(s, e);
            !t.sh.stop && (t.l.owed ==> ActionsToRead(t) + LoopActions([e]) <= ActionsToRead(s))
  {
    assert LoopActions([e]) == if e.Loop? then 1 else 0;
    if e.Loop? {
      if Connecting(s.w.pc) {
        NearerConnecting(s, e.ok, e.clock);
      } else if s.w.pc == SendNext && s.w.batch != [] {
        NearerSending(s, e.ok);
      } else if Heading(s.w) {
        NearerStraight(s, e.ok, e.clock);
      } else {
        NearerOpen(s, e.ok, e.clock);
      }
    }
  }

  /** At some point of the run no request is owed: the setting was read, or put back. */
  ghost predicate Answered(s: State, events: seq<Event>) {
    exists i :: 0 <= i <= |events| && !Run(s, events[..i]).l.owed
  }

  lemma AnsweredLater(s: State, events: seq<Event>)
    requires events != [] && Answered(Apply(s, events[0]), events[1..])
    ensures Answered(s, events)
  {
    var i :| 0 <= i < |events| && !Run(Apply(s, events[0]), events[1..][..i]).l.owed;
    assert events[..i + 1][1..] == events[1..][..i];
    assert !Run(s, events[..i + 1]).l.owed;
  }

  lemma {:induction false} AnsweredInTime(s: State, events: seq<Event>)
    requires TriggerInv(s) && LoopInv(s) && !s.sh.stop && RequestStop !in events
    requires s.l.owed ==> LoopActions(events) >= ActionsToRead(s)
    ensures Answered(s, events)
    decreases |events|
  {
    if !s.l.owed {
      assert !Run(s, events[..0]).l.owed;
    } else {
      AlwaysOnTheWay(s);
      var e := events[0];
      NearerStep(s, e);
      TriggerInvStep(s, e);
      LoopInvRun(s, [e]);
      assert Run(s, [e]) == Run(Apply(s, e), []);
      assert LoopActions(events) == LoopActions([e]) + LoopActions(events[1..]);
      AnsweredInTime(Apply(s, e), events[1..]);
      AnsweredLater(s, events);
    }
  }

  lemma AlwaysOnTheWay(s: State)
    requires LoopInv(s) && !s.sh.stop
    ensures 0 < ActionsToRead(s) <= MAX_ACTIONS_TO_READ
  {
  }

  /** In every interleaving without a stop, a reconnect request that is owed is answered by the time the
      loop has taken a fixed number of actions: it reads the setting, or the setting has been put back. */
  lemma OwedIsAnswered(maxAge: int, setting: Hub, before: seq<Event>, after: seq<Event>)
    requires !Run(Init(maxAge, setting), before).sh.stop && RequestStop !in after
    requires LoopActions(after) >= MAX_ACTIONS_TO_READ
    ensures Answered(Run(Init(maxAge, setting), before), after)
  {
    TriggerInvRun(Init(maxAge, setting), before);
    LoopInvRun(Init(maxAge, setting), before);
    var s := Run(Init(maxAge, setting), before);
    AlwaysOnTheWay(s);
    AnsweredInTime(s, after);
  }

  function LoopActions(events: seq<Event>): nat {
    if events == [] then 0 else (if events[0].Loop? then 1 else 0) + LoopActions(events[1..])
  }

  /** Events of the other threads. */
  predicate Foreign(events: seq<Event>) {
    forall i :: 0 <= i < |events| ==> !events[i].Loop? && !events[i].Restart?
  }

  /** While the loop holds the wake mutex nobody else touches the trigger flag or the loop's state. */
  lemma {:induction false} MutexHolds(s: State, events: seq<Event>)
    requires s.sh.locked && Foreign(events)
    ensures var t := Run(s, events); t.sh.locked && t.sh.requested == s.sh.requested && t.w == s.w
    decreases |events|
  {
    if events != [] {
      MutexHolds(Apply(s, events[0]), events[1..]);
    }
  }

  /** A trigger the new connection already answers is dropped, one it does not answer survives: whatever
      the other threads do in between, after the post-connect section the flag is set exactly when it was
      set as the section began and the setting read in it was not the connection's. `a` is what happens
      before that read, `b` what happens between it and the discard. */
  lemma SatisfiedTriggerDiscarded(s: State, a: seq<Event>, x: Event, b: seq<Event>, y: Event)
    requires s.w.pc == RereadHost && s.sh.locked && Foreign(a) && Foreign(b) && x.Loop? && y.Loop?
    ensures var t := Run(s, a + [x] + b + [y]);
            && t.w.pc == InnerTop && !t.sh.locked
            && t.sh.requested == (s.sh.requested && Run(s, a).sh.setting != s.w.host)
  {
    MutexHolds(s, a);
    RunSnoc(s, a, x);
    var u := Apply(Run(s, a), x);
    MutexHolds(u, b);
    RunConcat(s, a + [x], b);
    RunSnoc(s, a + [x] + b, y);
  }
}
