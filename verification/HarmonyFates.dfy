/** What becomes of a command queued for the Harmony hub, and when: what keeps it in the queue, what takes it
    out, what decides whether it is sent (src/core/harmony_connection.cpp). The hub settings are told here from
    the writes and the loop's reads alone. */
module HarmonyFates {
  import opened ConnectionWakes
  import opened HarmonyProtocol
  import opened HarmonyReconnects
  import opened HarmonyCommands

  // ---- what the loop has read ----

  /** The stored setting, the one last read, and the last configured hub read. */
  datatype Seen = Seen(setting: Hub, host: Hub, known: Hub)

  function See(s: State, seen: Seen, e: Event): Seen {
    if e.WriteSetting? then seen.(setting := e.value)
    else if e.Loop? && s.w.pc == ReadHost then
      Seen(seen.setting, seen.setting, if seen.setting == NoHub then seen.known else seen.setting)
    else seen
  }

  function SeenAfter(s: State, seen: Seen, events: seq<Event>): Seen
    decreases |events|
  {
    if events == [] then seen else SeenAfter(Apply(s, events[0]), See(s, seen, events[0]), events[1..])
  }

  predicate Knows(s: State, seen: Seen) {
    s.sh.setting == seen.setting && s.w.host == seen.host && s.w.lastHub == seen.known && s.l.observed == seen.host
  }

  lemma KnowsStep(s: State, seen: Seen, e: Event)
    requires Knows(s, seen)
    ensures Knows(Apply(s, e), See(s, seen, e))
  {
    if e.Loop? && s.w.pc != ReadHost {
      LoopKeepsHubs(s, e.ok, e.clock);
    }
  }

  lemma LoopKeepsHubs(s: State, ok: bool, clock: int)
    requires s.w.pc != ReadHost
    ensures var t := LoopStep(s, ok, clock);
            && t.sh.setting == s.sh.setting && t.w.host == s.w.host && t.w.lastHub == s.w.lastHub
            && t.l.observed == s.l.observed
  {
  }

  /** From any such start: what the loop remembers is what it read, and what it reads is what was written. */
  lemma {:induction false} KnowsRun(s: State, seen: Seen, events: seq<Event>)
    requires Knows(s, seen)
    ensures Knows(Run(s, events), SeenAfter(s, seen, events))
    decreases |events|
  {
    if events != [] {
      KnowsStep(s, seen, events[0]);
      KnowsRun(Apply(s, events[0]), See(s, seen, events[0]), events[1..]);
    }
  }

  // ---- a queued command stays queued ----

  /** All that can take c out of the queue: the loop takes the whole queue to send it, or to give it up after a
      stop; the loop reads that the hub it knew is no longer the one set; or c is the oldest of a full queue. */
  predicate Disturbs(s: State, seen: Seen, e: Event, c: Command) {
    match e
    case Loop(_, _) =>
      || s.w.pc == SwapQueue || s.w.pc == DrainQueue
      || (s.w.pc == ReadHost && seen.known != NoHub && seen.setting != seen.known)
    case Enqueue(_, _) => !s.sh.locked && |s.sh.pending| >= 20 && s.sh.pending[0] == c
    case _ => false
  }

  predicate Undisturbed(s: State, seen: Seen, events: seq<Event>, c: Command)
    decreases |events|
  {
    events != [] ==>
      !Disturbs(s, seen, events[0], c) && Undisturbed(Apply(s, events[0]), See(s, seen, events[0]), events[1..], c)
  }

  predicate Queued(s: State, c: Command) {
    c in s.sh.pending && s.w.pc != ClearQueue && |s.sh.pending| <= 20
  }

  lemma KeptStep(s: State, seen: Seen, e: Event, c: Command)
    requires Knows(s, seen) && Queued(s, c) && !Disturbs(s, seen, e, c)
    ensures Queued(Apply(s, e), c)
  {
    if e.Loop? {
      if s.w.pc != SendNext {
        KeptByLoop(s, e.ok, e.clock);
      }
    } else if e.Enqueue? && !s.sh.locked {
      var k :| 0 <= k < |s.sh.pending| && s.sh.pending[k] == c;
      var t := EnqueueStep(s, e.kind, e.at);
      assert t.sh.pending[|t.sh.pending| - 1 - (|s.sh.pending| - k)] == c;
    }
  }

  lemma KeptByLoop(s: State, ok: bool, clock: int)
    requires s.w.pc != SendNext && s.w.pc != SwapQueue && s.w.pc != DrainQueue && s.w.pc != ClearQueue
    ensures var t := LoopStep(s, ok, clock);
            && t.sh.pending == s.sh.pending
            && (t.w.pc == ClearQueue <==> s.w.pc == ReadHost && s.w.lastHub != NoHub && s.sh.setting != s.w.lastHub)
  {
  }

  lemma {:induction false} KeptRun(s: State, seen: Seen, events: seq<Event>, c: Command)
    requires Knows(s, seen) && Queued(s, c) && Undisturbed(s, seen, events, c)
    ensures Queued(Run(s, events), c)
    decreases |events|
  {
    if events != [] {
      KeptStep(s, seen, events[0], c);
      KnowsStep(s, seen, events[0]);
      KeptRun(Apply(s, events[0]), See(s, seen, events[0]), events[1..], c);
    }
  }

  /** In every run a queued command stays queued until one of those happens: reconnecting to the same hub,
      connecting to the first one, failed connects, probes and sleeps never cost a command. */
  lemma StaysQueuedUntilTaken(maxAge: int, setting: Hub, before: seq<Event>, after: seq<Event>, c: Command)
    requires var s := Run(Init(maxAge, setting), before);
             c in s.sh.pending && s.w.pc != ClearQueue
             && Undisturbed(s, SeenAfter(Init(maxAge, setting), Seen(setting, NoHub, NoHub), before), after, c)
    ensures c in Run(Init(maxAge, setting), before + after).sh.pending
  {
    KnowsRun(Init(maxAge, setting), Seen(setting, NoHub, NoHub), before);
    LoopInvRun(Init(maxAge, setting), before);
    KeptRun(Run(Init(maxAge, setting), before), SeenAfter(Init(maxAge, setting), Seen(setting, NoHub, NoHub), before),
            after, c);
    RunConcat(Init(maxAge, setting), before, after);
  }

  // ---- which command a full queue gives up ----

  /** Twenty commands were queued after it. */
  ghost predicate EvictedAreOld(s: State) {
    forall c :: c in s.l.evicted ==> c.id + 20 < |s.l.enqueued|
  }

  /** A new command is queued last, with what was observed as it came; only a full queue gives one up, its oldest. */
  lemma EnqueueQueues(s: State, kind: Kind, at: int)
    requires !s.sh.locked && |s.sh.pending| <= 20
    ensures var t := Apply(s, Enqueue(kind, at));
            var c := Command(|s.l.enqueued|, kind, at, s.l.observed);
            && t.l.enqueued == s.l.enqueued + [c]
            && (|s.sh.pending| < 20 ==> t.sh.pending == s.sh.pending + [c] && t.l.evicted == s.l.evicted)
            && (|s.sh.pending| == 20 ==>
                  t.sh.pending == s.sh.pending[1..] + [c] && t.l.evicted == s.l.evicted + [s.sh.pending[0]])
  {
  }

  lemma OldestOfAFullQueue(s: State)
    requires OrderInv(s) && |s.sh.pending| == 20
    ensures s.sh.pending[0].id + 20 <= |s.l.enqueued|
  {
    IdsApart(s, 19);
    assert s.sh.pending[19] in s.sh.pending;
    assert s.sh.pending[19] in Line(s);
  }

  lemma {:induction false} IdsApart(s: State, k: nat)
    requires OrderInv(s) && k < |s.sh.pending|
    ensures s.sh.pending[0].id + k <= s.sh.pending[k].id
    decreases k
  {
    if k > 0 {
      IdsApart(s, k - 1);
      var head := |Line(s)| - |s.sh.pending|;
      assert Line(s)[head + k - 1] == s.sh.pending[k - 1] && Line(s)[head + k] == s.sh.pending[k];
    }
  }

  lemma LoopEvictsNothing(s: State, ok: bool, clock: int)
    ensures LoopStep(s, ok, clock).l.evicted == s.l.evicted
  {
  }

  lemma EvictedStep(s: State, e: Event)
    requires Inv(s) && EvictedAreOld(s)
    ensures EvictedAreOld(Apply(s, e))
  {
    if e.Loop? {
      LoopEvictsNothing(s, e.ok, e.clock);
      LoopKeepsEnqueued(s, e.ok, e.clock);
    } else if e.Enqueue? && !s.sh.locked {
      EnqueueQueues(s, e.kind, e.at);
      if |s.sh.pending| == 20 {
        OldestOfAFullQueue(s);
      }
    }
  }

  lemma {:induction false} EvictedRun(s: State, events: seq<Event>)
    requires Inv(s) && EvictedAreOld(s)
    ensures EvictedAreOld(Run(s, events))
    decreases |events|
  {
    if events != [] {
      EvictedStep(s, events[0]);
      StepInv(s, events[0]);
      EvictedRun(Apply(s, events[0]), events[1..]);
    }
  }

  /** Over any run a command the cap evicted had twenty younger ones queued behind it. */
  lemma OnlyOldCommandsAreEvicted(maxAge: int, setting: Hub, events: seq<Event>)
    ensures EvictedAreOld(Run(Init(maxAge, setting), events))
  {
    InitInv(maxAge, setting);
    EvictedRun(Init(maxAge, setting), events);
  }

  // ---- what becomes of a batch ----

  /** A release always goes out; anything else only while young enough and while every attempt of the batch
      so far was accepted. `oks` are the outcomes SendText has in store, command by command. */
  predicate IsTried(batch: seq<Command>, now: int, maxAge: int, oks: seq<bool>, i: nat)
    requires i < |batch| && i <= |oks|
    decreases i, 0
  {
    || batch[i].kind == Release
    || (now - batch[i].enqueuedAt <= maxAge && !FailedBefore(batch, now, maxAge, oks, i))
  }

  predicate FailedBefore(batch: seq<Command>, now: int, maxAge: int, oks: seq<bool>, i: nat)
    requires i <= |batch| && i <= |oks|
    decreases i, -1
  {
    i > 0 && (FailedBefore(batch, now, maxAge, oks, i - 1)
              || (IsTried(batch, now, maxAge, oks, i - 1) && !oks[i - 1]))
  }

  function AttemptsOf(batch: seq<Command>, now: int, maxAge: int, hub: Hub, oks: seq<bool>, n: nat): seq<Attempt>
    requires n <= |batch| && n <= |oks|
  {
    if n == 0 then []
    else
      AttemptsOf(batch, now, maxAge, hub, oks, n - 1)
      + if IsTried(batch, now, maxAge, oks, n - 1) then [Attempt(batch[n - 1], hub, oks[n - 1])] else []
  }

  function LossesIn(batch: seq<Command>, now: int, maxAge: int, oks: seq<bool>, n: nat): seq<Loss>
    requires n <= |batch| && n <= |oks|
  {
    if n == 0 then []
    else
      LossesIn(batch, now, maxAge, oks, n - 1)
      + (if !IsTried(batch, now, maxAge, oks, n - 1) then
           [Loss(batch[n - 1], if now - batch[n - 1].enqueuedAt > maxAge then Stale else DeadTransport)]
         else if !oks[n - 1] then [Loss(batch[n - 1], SendFailed)]
         else [])
  }

  function Sends(oks: seq<bool>): seq<Event> {
    seq(|oks|, i requires 0 <= i < |oks| => Loop(oks[i], 0))
  }

  predicate SentSoFar(s: State, t: State, oks: seq<bool>, n: nat)
    requires n <= |oks| && n <= |s.w.batch|
  {
    && t.w.pc == SendNext && t.sh == s.sh && t.maxAge == s.maxAge
    && t.w.batch == s.w.batch[n..] && t.w.now == s.w.now && t.w.host == s.w.host
    && (t.w.failed <==> FailedBefore(s.w.batch, s.w.now, s.maxAge, oks, n))
    && t.l.tried == s.l.tried + AttemptsOf(s.w.batch, s.w.now, s.maxAge, s.w.host, oks, n)
    && t.l.lost == s.l.lost + LossesIn(s.w.batch, s.w.now, s.maxAge, oks, n)
  }

  lemma OneMoreSent(s: State, t: State, oks: seq<bool>, n: nat)
    requires n < |oks| && n < |s.w.batch| && !s.sh.stop
    requires SentSoFar(s, t, oks, n)
    ensures SentSoFar(s, LoopStep(t, oks[n], 0), oks, n + 1)
  {
    var c := t.w.batch[0];
    assert LossesOf([c], Stale) == [Loss(c, Stale)];
    assert LossesOf([c], DeadTransport) == [Loss(c, DeadTransport)];
    assert LossesOf([c], SendFailed) == [Loss(c, SendFailed)];
  }

  lemma {:induction false} BatchRun(s: State, oks: seq<bool>, n: nat)
    requires s.w.pc == SendNext && !s.sh.stop && !s.w.failed
    requires n <= |oks| && n <= |s.w.batch|
    ensures SentSoFar(s, Run(s, Sends(oks[..n])), oks, n)
    decreases n
  {
    if n == 0 {
      assert s.w.batch[0..] == s.w.batch;
    } else {
      BatchRun(s, oks, n - 1);
      OneMoreSent(s, Run(s, Sends(oks[..n - 1])), oks, n - 1);
      RunSnoc(s, Sends(oks[..n - 1]), Loop(oks[n - 1], 0));
      assert Sends(oks[..n]) == Sends(oks[..n - 1]) + [Loop(oks[n - 1], 0)];
    }
  }

  /** Whatever SendText answers, a batch no stop cuts short is attempted and lost exactly as the rule says, each
      command on the open connection, in order and with the reason of its loss; and its last action sees
      whether any attempt failed. */
  lemma BatchMeetsItsFate(s: State, oks: seq<bool>)
    requires s.w.pc == SendNext && !s.sh.stop && !s.w.failed && |oks| == |s.w.batch|
    ensures var t := Run(s, Sends(oks));
            var n := |oks|;
            && t.w.batch == [] && t.w.pc == SendNext
            && (t.w.failed <==> FailedBefore(s.w.batch, s.w.now, s.maxAge, oks, n))
            && t.l.tried == s.l.tried + AttemptsOf(s.w.batch, s.w.now, s.maxAge, s.w.host, oks, n)
            && t.l.lost == s.l.lost + LossesIn(s.w.batch, s.w.now, s.maxAge, oks, n)
  {
    BatchRun(s, oks, |oks|);
    assert oks[..|oks|] == oks;
  }

  // ---- a connection that failed carries nothing more ----

  /** No socket is open, or it is about to be closed. */
  predicate Down(pc: Pc) {
    match pc
    case CloseSocket | Top | ReadHost | ClearQueue | ReportCleared | IdleSleep | Connect | RetrySleep => true
    case ReportAbort | DrainQueue | ReportDrained | Stopped => true
    case _ => false
  }

  predicate NoConnect(s: State, events: seq<Event>)
    decreases |events|
  {
    events != [] ==>
      !(events[0].Loop? && events[0].ok && s.w.pc == Connect) && NoConnect(Apply(s, events[0]), events[1..])
  }

  lemma DownStep(s: State, e: Event)
    requires Down(s.w.pc) && !(e.Loop? && e.ok && s.w.pc == Connect)
    ensures Down(Apply(s, e).w.pc) && Apply(s, e).l.tried == s.l.tried
  {
    if e.Loop? {
      StaysDown(s, e.ok, e.clock);
    }
  }

  lemma StaysDown(s: State, ok: bool, clock: int)
    requires Down(s.w.pc) && !(ok && s.w.pc == Connect)
    ensures Down(LoopStep(s, ok, clock).w.pc)
  {
  }

  /** After a failed connect, a failed probe, a batch with a failed attempt, a batch cut short by a stop or a
      reconnect request, nothing is handed to SendText before a new connect has succeeded. */
  lemma {:induction false} DownSendsNothing(s: State, events: seq<Event>)
    requires Down(s.w.pc) && NoConnect(s, events)
    ensures Run(s, events).l.tried == s.l.tried && Down(Run(s, events).w.pc)
    decreases |events|
  {
    if events != [] {
      DownStep(s, events[0]);
      DownSendsNothing(Apply(s, events[0]), events[1..]);
    }
  }

  /** What takes the link down, and what does not; a connection that was quiet for a whole interval is probed. */
  lemma FailureGoesDown(s: State, ok: bool, clock: int)
    ensures var t := LoopStep(s, ok, clock);
            && (s.w.pc == Probe ==> (Down(t.w.pc) <==> !ok))
            && (s.w.pc == Connect ==> if ok then t.w.pc == LockWake else Down(t.w.pc))
            && (s.w.pc == BatchEnd ==>
                  && (Down(t.w.pc) <==> s.w.failed || s.w.reason.Triggered?)
                  && (t.w.pc == Probe <==> !s.w.failed && (s.w.reason.Timeout? || s.w.reason.StopRequested?))
                  && (t.w.pc == InnerTop <==> !s.w.failed && s.w.reason.CommandPending?))
            && (s.w.pc == SendNext && s.w.batch != [] ==> (Down(t.w.pc) <==> s.sh.stop))
            && (s.w.pc == InnerWait || s.w.pc == InnerTop ==> (Down(t.w.pc) <==> s.sh.stop))
  {
  }

  /** A wait drops the reconnect request it reports and no other: one that a stop ends leaves it set. On a connection
      the request is reported before queued commands, and they before the interval. A stopped loop that is started
      again goes on with the queue it finds. */
  lemma WaitsAndRestarts(s: State, ok: bool, clock: int)
    ensures var t := LoopStep(s, ok, clock);
            s.w.pc == IdleSleep || s.w.pc == RetrySleep || s.w.pc == InnerWait ==>
              (t.sh.requested <==> s.sh.requested && s.sh.stop) && t.sh.pending == s.sh.pending
    ensures var t := LoopStep(s, ok, clock);
            s.w.pc == InnerWait ==>
              && (t.w.reason.StopRequested? <==> s.sh.stop)
              && (t.w.reason.Triggered? <==> s.sh.requested && !s.sh.stop)
              && (t.w.reason.CommandPending? <==> s.sh.pending != [] && !s.sh.requested && !s.sh.stop)
    ensures var t := Apply(s, Restart);
            s.w.pc == Stopped ==> t.w.pc == Top && t.sh == s.sh.(stop := false) && t.l == s.l
  {
  }

  // ---- a connected loop takes what is queued ----

  /** Actions until the queue has been taken, on a connection; 0 off it. */
  function ActionsToTake(pc: Pc): nat {
    match pc
    case SwapQueue => 1
    case InnerWait => 2
    case InnerTop => 3
    case DiscardTrigger => 4
    case RereadHost => 5
    case LockWake => 6
    case _ => 0
  }

  predicate TakenIn(s: State, c: Command, actions: int) {
    && !s.sh.stop
    && (c in s.l.evicted
        || (actions > 0 && ActionsToTake(s.w.pc) == actions && c in s.sh.pending)
        || (actions == 0 && s.w.pc == SendNext && c in s.w.batch))
  }

  lemma TakenInStep(s: State, c: Command, e: Event, actions: nat)
    requires TakenIn(s, c, actions) && !e.RequestStop? && (e.Loop? ==> actions > 0)
    ensures TakenIn(Apply(s, e), c, if e.Loop? then actions - 1 else actions)
  {
    if e.Loop? {
      LoopEvictsNothing(s, e.ok, e.clock);
      if c in s.sh.pending && ActionsToTake(s.w.pc) == actions {
        OneActionNearer(s, e.ok, e.clock);
      }
    } else if e.Enqueue? {
      var queue := s.sh.pending + [Command(|s.l.enqueued|, e.kind, e.at, s.l.observed)];
      var over := if |queue| > MAX_PENDING_COMMANDS then |queue| - MAX_PENDING_COMMANDS else 0;
      assert queue == queue[..over] + queue[over..];
      if c in s.sh.pending {
        assert c in queue;
      }
    }
  }

  lemma OneActionNearer(s: State, ok: bool, clock: int)
    requires !s.sh.stop && ActionsToTake(s.w.pc) > 0
    ensures var t := LoopStep(s, ok, clock);
            if s.w.pc == SwapQueue then t.w.pc == SendNext && t.w.batch == s.sh.pending
            else ActionsToTake(t.w.pc) == ActionsToTake(s.w.pc) - 1 && t.sh.pending == s.sh.pending
  {
  }

  /** On an open connection everything queued is in the loop's next batch, but for what the cap evicts meanwhile:
      in every interleaving without a stop, after as many of its actions as are left to the next swap. */
  lemma {:induction false} ConnectedLoopTakesQueue(s: State, c: Command, events: seq<Event>, actions: nat)
    requires TakenIn(s, c, actions) && LoopActions(events) == actions && RequestStop !in events
    ensures var t := Run(s, events); c in t.l.evicted || (t.w.pc == SendNext && c in t.w.batch)
    decreases |events|
  {
    if events != [] {
      var e := events[0];
      assert e in events;
      TakenInStep(s, c, e, actions);
      ConnectedLoopTakesQueue(Apply(s, e), c, events[1..], if e.Loop? then actions - 1 else actions);
    }
  }

  // ---- a stop ends the loop and gives up what is queued ----

  function ActionsToStop(pc: Pc): nat {
    match pc
    case Stopped => 0
    case ReportDrained => 1
    case DrainQueue => 2
    case Top => 3
    case CloseSocket | IdleSleep | RetrySleep => 4
    case ReportAbort | InnerTop | InnerWait => 5
    case DiscardTrigger | Probe => 6
    case RereadHost | BatchEnd => 7
    case LockWake | SendNext => 8
    case Connect | SwapQueue => 9
    case ReportCleared => 10
    case ClearQueue => 11
    case ReadHost => 12
  }

  predicate StopsWithin(s: State, actions: int, n: nat) {
    && s.sh.stop && n <= |s.l.enqueued|
    && (ActionsToStop(s.w.pc) <= actions || s.w.pc == Stopped)
    && (s.w.pc == ReportDrained || s.w.pc == Stopped ==> forall c :: c in s.sh.pending ==> c.id >= n)
  }

  predicate Nearer(from: Pc, to: Pc) {
    from == to == Stopped || ActionsToStop(to) < ActionsToStop(from)
  }

  lemma NearerConnecting(s: State, ok: bool, clock: int)
    requires s.sh.stop && Connecting(s.w.pc)
    ensures Nearer(s.w.pc, LoopStep(s, ok, clock).w.pc)
  {
  }

  lemma NearerConnected(s: State, ok: bool, clock: int)
    requires s.sh.stop && !Connecting(s.w.pc) && (s.w.pc == SendNext ==> s.w.batch == [])
    ensures Nearer(s.w.pc, LoopStep(s, ok, clock).w.pc)
  {
  }

  lemma StoppingAction(s: State, ok: bool, clock: int)
    requires s.sh.stop
    ensures var t := LoopStep(s, ok, clock);
            && t.sh.stop && t.l.enqueued == s.l.enqueued
            && Nearer(s.w.pc, t.w.pc)
            && (t.w.pc == ReportDrained ==> t.sh.pending == [])
            && (t.w.pc == Stopped ==> t.sh.pending == s.sh.pending && (s.w.pc == ReportDrained || s.w.pc == Stopped))
  {
    LoopKeepsEnqueued(s, ok, clock);
    if s.w.pc == SendNext && s.w.batch != [] {
      assert LoopStep(s, ok, clock) == AbortBatch(s);
    } else {
      if Connecting(s.w.pc) {
        NearerConnecting(s, ok, clock);
      } else {
        NearerConnected(s, ok, clock);
      }
    }
  }

  lemma StopsWithinStep(s: State, e: Event, actions: int, n: nat)
    requires StopsWithin(s, actions, n) && !e.Restart?
    ensures StopsWithin(Apply(s, e), if e.Loop? then actions - 1 else actions, n)
  {
    if e.Loop? {
      StoppingAction(s, e.ok, e.clock);
    }
  }

  lemma {:induction false} StopsWithinRun(s: State, events: seq<Event>, actions: int, n: nat)
    requires StopsWithin(s, actions, n) && Restart !in events
    ensures StopsWithin(Run(s, events), actions - LoopActions(events), n)
    decreases |events|
  {
    if events != [] {
      assert events[0] in events;
      StopsWithinStep(s, events[0], actions, n);
      StopsWithinRun(Apply(s, events[0]), events[1..], if events[0].Loop? then actions - 1 else actions, n);
    }
  }

  /** In every interleaving a requested stop ends the loop within a dozen of its actions, wherever it stands, with
      no command queued before the stop left behind and every loss reported. */
  lemma StopEndsTheLoop(maxAge: int, setting: Hub, before: seq<Event>, after: seq<Event>)
    requires var s := Run(Init(maxAge, setting), before); s.sh.stop && s.w.pc != Stopped && s.w.pc != ReportDrained
    requires Restart !in after && LoopActions(after) >= 12
    ensures var s := Run(Init(maxAge, setting), before);
            var t := Run(Init(maxAge, setting), before + after);
            && t.w.pc == Stopped && t.l.reported == |t.l.lost|
            && forall c :: c in t.sh.pending ==> c.id >= |s.l.enqueued|
  {
    var s := Run(Init(maxAge, setting), before);
    StopsWithinRun(s, after, 12, |s.l.enqueued|);
    RunConcat(Init(maxAge, setting), before, after);
    EveryLossReported(maxAge, setting, before + after);
  }

  /** What is given up whole: the queue of a hub that was replaced, the queue a stopped loop finds, the rest of a
      batch that a stop cuts short. Each command is lost, in order, for that reason. */
  lemma GivenUpWhole(s: State, ok: bool, clock: int)
    ensures var lost := LoopStep(s, ok, clock).l.lost;
            && (s.w.pc == ClearQueue ==> AddedLosses(s.l.lost, lost, s.sh.pending, HubChanged))
            && (s.w.pc == DrainQueue ==> AddedLosses(s.l.lost, lost, s.sh.pending, Shutdown))
            && (s.w.pc == SendNext && s.sh.stop ==> AddedLosses(s.l.lost, lost, s.w.batch, StopMidBatch))
  {
  }

  predicate AddedLosses(before: seq<Loss>, after: seq<Loss>, commands: seq<Command>, cause: Cause) {
    && |after| == |before| + |commands| && before <= after
    && forall i :: 0 <= i < |commands| ==> after[|before| + i] == Loss(commands[i], cause)
  }
}
