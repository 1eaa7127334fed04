/** Every command queued for the Harmony hub is accounted for: where it is, in what order commands are sent,
    that every loss is reported and that none reaches another hub (src/core/harmony_connection.cpp). */
module HarmonyCommands {
  import opened ConnectionWakes
  import opened HarmonyProtocol
  import opened HarmonyReconnects

  function TriedCommands(tried: seq<Attempt>): seq<Command> {
    seq(|tried|, i requires 0 <= i < |tried| => tried[i].cmd)
  }

  ghost predicate Increasing(cs: seq<Command>) {
    forall i, j :: 0 <= i < j < |cs| ==> cs[i].id < cs[j].id
  }

  /** Everything still able to reach the hub, behind everything already handed to it. */
  function Line(s: State): seq<Command> {
    TriedCommands(s.l.tried) + s.w.batch + s.sh.pending
  }

  function Times(cs: seq<Command>, c: Command): nat {
    multiset(cs)[c]
  }

  /** How often a command is found, over the five places one can be in. */
  function Found(s: State, c: Command): nat {
    Times(s.sh.pending, c) + Times(s.w.batch, c) + Times(SentCommands(s.l.tried), c)
      + Times(s.l.evicted, c) + Times(LostCommands(s.l.lost), c)
  }

  ghost predicate Accounted(s: State) {
    forall c :: Found(s, c) == Times(s.l.enqueued, c)
  }

  ghost predicate OrderInv(s: State) {
    && (forall i :: 0 <= i < |s.l.enqueued| ==> s.l.enqueued[i].id == i)
    && Increasing(Line(s))
    && (forall c :: c in Line(s) ==> c.id < |s.l.enqueued|)
    && |s.sh.pending| <= MAX_PENDING_COMMANDS
    && (s.w.batch != [] ==> s.w.pc == SendNext)
  }

  lemma SentAppend(tried: seq<Attempt>, a: Attempt)
    ensures SentCommands(tried + [a]) == SentCommands(tried) + (if a.ok then [a.cmd] else [])
    ensures TriedCommands(tried + [a]) == TriedCommands(tried) + [a.cmd]
  {
    assert (tried + [a])[..|tried|] == tried;
  }

  lemma LostAppend(a: seq<Loss>, b: seq<Loss>)
    ensures LostCommands(a + b) == LostCommands(a) + LostCommands(b)
  {
  }

  lemma LossesOfCommands(cs: seq<Command>, cause: Cause)
    ensures LostCommands(LossesOf(cs, cause)) == cs
  {
  }

  lemma TimesConcat(a: seq<Command>, b: seq<Command>, c: Command)
    ensures Times(a + b, c) == Times(a, c) + Times(b, c)
  {
  }

  lemma LostTimes(l: seq<Loss>, cs: seq<Command>, cause: Cause, c: Command)
    ensures Times(LostCommands(l + LossesOf(cs, cause)), c) == Times(LostCommands(l), c) + Times(cs, c)
  {
    LossesOfCommands(cs, cause);
    LostAppend(l, LossesOf(cs, cause));
    TimesConcat(LostCommands(l), cs, c);
  }

  lemma SkipKeepsFound(s: State, cause: Cause, c: Command)
    requires s.w.batch != []
    ensures Found(SkipHead(s, cause), c) == Found(s, c)
  {
    var x := s.w.batch[0];
    assert s.w.batch == [x] + s.w.batch[1..];
    TimesConcat([x], s.w.batch[1..], c);
    LostTimes(s.l.lost, [x], cause, c);
  }

  lemma TryKeepsFound(s: State, ok: bool, c: Command)
    requires s.w.batch != []
    ensures Found(TryHead(s, ok), c) == Found(s, c)
  {
    var x := s.w.batch[0];
    assert s.w.batch == [x] + s.w.batch[1..];
    TimesConcat([x], s.w.batch[1..], c);
    LostTimes(s.l.lost, [x], SendFailed, c);
    assert s.l.lost + [] == s.l.lost;
    SentAppend(s.l.tried, Attempt(x, s.w.host, ok));
    TimesConcat(SentCommands(s.l.tried), [x], c);
  }

  lemma SendKeepsFound(s: State, ok: bool, c: Command)
    requires s.w.batch != []
    ensures Found(SendStep(s, ok), c) == Found(s, c)
  {
    var x := s.w.batch[0];
    if s.sh.stop {
      LostTimes(s.l.lost, s.w.batch, StopMidBatch, c);
    } else if x.kind != Release && s.w.now - x.enqueuedAt > s.maxAge {
      SkipKeepsFound(s, Stale, c);
    } else if s.w.failed && x.kind != Release {
      SkipKeepsFound(s, DeadTransport, c);
    } else {
      TryKeepsFound(s, ok, c);
    }
  }

  lemma ConnectingKeepsFound(s: State, ok: bool, clock: int, c: Command)
    requires Connecting(s.w.pc)
    ensures Found(LoopStep(s, ok, clock), c) == Found(s, c)
  {
    if s.w.pc == ClearQueue {
      LostTimes(s.l.lost, s.sh.pending, HubChanged, c);
    }
  }

  lemma LoopKeepsFound(s: State, ok: bool, clock: int, c: Command)
    requires s.w.batch != [] ==> s.w.pc == SendNext
    ensures Found(LoopStep(s, ok, clock), c) == Found(s, c)
  {
    if Connecting(s.w.pc) {
      ConnectingKeepsFound(s, ok, clock, c);
    } else if s.w.pc == SendNext && s.w.batch != [] {
      SendKeepsFound(s, ok, c);
    } else if s.w.pc == DrainQueue {
      LostTimes(s.l.lost, s.sh.pending, Shutdown, c);
    }
  }

  lemma EnqueueKeepsFound(s: State, kind: Kind, at: int, c: Command)
    ensures var t := EnqueueStep(s, kind, at);
            Found(t, c) - Times(t.l.enqueued, c) == Found(s, c) - Times(s.l.enqueued, c)
  {
    var x := Command(|s.l.enqueued|, kind, at, s.l.observed);
    var queue := s.sh.pending + [x];
    var over := |queue| - |EnqueueStep(s, kind, at).sh.pending|;
    assert queue == queue[..over] + queue[over..];
    TimesConcat(queue[..over], queue[over..], c);
    TimesConcat(s.sh.pending, [x], c);
    TimesConcat(s.l.evicted, queue[..over], c);
    TimesConcat(s.l.enqueued, [x], c);
  }

  lemma OrderEnqueue(s: State, kind: Kind, at: int)
    requires OrderInv(s)
    ensures OrderInv(EnqueueStep(s, kind, at))
  {
    var t := EnqueueStep(s, kind, at);
    var c := Command(|s.l.enqueued|, kind, at, s.l.observed);
    var head := TriedCommands(s.l.tried) + s.w.batch;
    var queue := s.sh.pending + [c];
    var over := |queue| - |t.sh.pending|;
    assert Line(s) + [c] == head + queue[..over] + queue[over..];
    DropMiddle(head, queue[..over], queue[over..]);
    assert Line(t) == head + queue[over..];
  }

  lemma OrderAbort(s: State)
    requires OrderInv(s)
    ensures OrderInv(AbortBatch(s))
  {
    DropMiddle(TriedCommands(s.l.tried), s.w.batch, s.sh.pending);
    assert Line(AbortBatch(s)) == TriedCommands(s.l.tried) + s.sh.pending;
  }

  lemma OrderSkip(s: State, cause: Cause)
    requires OrderInv(s) && s.w.batch != []
    ensures OrderInv(SkipHead(s, cause))
  {
    var rest := s.w.batch[1..] + s.sh.pending;
    assert Line(s) == TriedCommands(s.l.tried) + [s.w.batch[0]] + rest;
    DropMiddle(TriedCommands(s.l.tried), [s.w.batch[0]], rest);
    assert Line(SkipHead(s, cause)) == TriedCommands(s.l.tried) + rest;
  }

  lemma OrderTry(s: State, ok: bool)
    requires OrderInv(s) && s.w.batch != []
    ensures OrderInv(TryHead(s, ok))
  {
    var t := TryHead(s, ok);
    SentAppend(s.l.tried, Attempt(s.w.batch[0], s.w.host, ok));
    assert Line(t) == Line(s) by {
      assert s.w.batch == [s.w.batch[0]] + s.w.batch[1..];
      assert TriedCommands(t.l.tried) + t.w.batch == TriedCommands(s.l.tried) + s.w.batch;
    }
    assert t.l.enqueued == s.l.enqueued && t.sh == s.sh && t.w.pc == s.w.pc;
  }

  lemma DropMiddle(a: seq<Command>, b: seq<Command>, c: seq<Command>)
    requires Increasing(a + b + c)
    ensures Increasing(a + c) && forall x :: x in a + c ==> x in a + b + c
  {
    assert forall k :: 0 <= k < |a| ==> (a + c)[k] == (a + b + c)[k];
    assert forall k :: |a| <= k < |a + c| ==> (a + c)[k] == (a + b + c)[k + |b|];
  }

  lemma OrderSend(s: State, ok: bool)
    requires OrderInv(s) && s.w.batch != []
    ensures OrderInv(SendStep(s, ok))
  {
    OrderAbort(s);
    OrderSkip(s, Stale);
    OrderSkip(s, DeadTransport);
    OrderTry(s, ok);
  }

  lemma OrderLoop(s: State, ok: bool, clock: int)
    requires OrderInv(s)
    ensures OrderInv(LoopStep(s, ok, clock))
  {
    var t := LoopStep(s, ok, clock);
    if s.w.pc == SendNext && s.w.batch != [] {
      OrderSend(s, ok);
    } else if s.w.pc == ClearQueue || s.w.pc == DrainQueue {
      DropMiddle(TriedCommands(s.l.tried) + s.w.batch, s.sh.pending, []);
      assert Line(t) == TriedCommands(s.l.tried) + s.w.batch + [];
    } else if s.w.pc == SwapQueue {
      assert Line(t) == Line(s);
    } else {
      assert Line(t) == Line(s);
    }
  }

  // ---- every loss is reported ----

  /** Losses not yet covered by an event: only on the way to the publish that covers them. */
  predicate Unreported(w: Worker) {
    match w.pc
    case ReportCleared | ReportDrained | ReportAbort => w.mustReport
    case SendNext | BatchEnd => w.stale || w.failed
    case _ => false
  }

  /** Why a command may be lost: a release only with its hub, to a stop, or after its own attempt. */
  ghost predicate Excused(loss: Loss, tried: seq<Attempt>) {
    && (loss.cmd.kind == Release ==> loss.cause != Stale && loss.cause != DeadTransport)
    && (loss.cause == SendFailed ==> exists a :: a in tried && a.cmd == loss.cmd && !a.ok)
  }

  ghost predicate ReportInv(s: State) {
    && s.l.events <= s.l.reported <= |s.l.lost|
    && (s.l.reported < |s.l.lost| <==> Unreported(s.w))
    && (forall i :: 0 <= i < |s.l.lost| ==> Excused(s.l.lost[i], s.l.tried))
    && (s.w.batch != [] ==> s.w.pc == SendNext)
  }

  lemma ReportSkip(s: State, cause: Cause)
    requires ReportInv(s) && s.w.pc == SendNext && s.w.batch != [] && s.w.batch[0].kind != Release
    requires cause == Stale || (cause == DeadTransport && s.w.failed)
    ensures ReportInv(SkipHead(s, cause))
  {
  }

  lemma ReportTry(s: State, ok: bool)
    requires ReportInv(s) && s.w.pc == SendNext && s.w.batch != []
    ensures ReportInv(TryHead(s, ok))
  {
    var a := Attempt(s.w.batch[0], s.w.host, ok);
    var tried := s.l.tried + [a];
    assert a in tried;
    forall i | 0 <= i < |s.l.lost| ensures Excused(s.l.lost[i], tried) {
      if s.l.lost[i].cause == SendFailed {
        var b :| b in s.l.tried && b.cmd == s.l.lost[i].cmd && !b.ok;
        assert b in tried;
      }
    }
  }

  lemma ReportSend(s: State, ok: bool)
    requires ReportInv(s) && s.w.pc == SendNext && s.w.batch != []
    ensures ReportInv(SendStep(s, ok))
  {
    var x := s.w.batch[0];
    if s.sh.stop {
    } else if x.kind != Release && s.w.now - x.enqueuedAt > s.maxAge {
      ReportSkip(s, Stale);
    } else if s.w.failed && x.kind != Release {
      ReportSkip(s, DeadTransport);
    } else {
      ReportTry(s, ok);
    }
  }

  lemma ReportLose(s: State, cause: Cause, next: Pc)
    requires ReportInv(s) && !Unreported(s.w) && s.w.batch == []
    requires (cause == HubChanged && next == ReportCleared) || (cause == Shutdown && next == ReportDrained)
    ensures ReportInv(LoseQueue(s, cause, next))
  {
  }

  lemma ReportConnecting(s: State, ok: bool, clock: int)
    requires ReportInv(s) && Connecting(s.w.pc)
    ensures ReportInv(LoopStep(s, ok, clock))
  {
  }

  lemma ReportConnected(s: State, ok: bool, clock: int)
    requires ReportInv(s) && !Connecting(s.w.pc) && (s.w.pc == SendNext ==> s.w.batch == [])
    ensures ReportInv(LoopStep(s, ok, clock))
  {
    if s.w.pc == DrainQueue {
      ReportLose(s, Shutdown, ReportDrained);
    }
  }

  lemma ReportLoop(s: State, ok: bool, clock: int)
    requires ReportInv(s)
    ensures ReportInv(LoopStep(s, ok, clock))
  {
    if Connecting(s.w.pc) {
      ReportConnecting(s, ok, clock);
    } else if s.w.pc == SendNext && s.w.batch != [] {
      ReportSend(s, ok);
    } else {
      ReportConnected(s, ok, clock);
    }
  }

  // ---- no command crosses from one hub to another ----

  /** Actions taken for a hub that was read as configured. */
  predicate Dialling(pc: Pc) {
    match pc
    case Connect | LockWake | RereadHost | DiscardTrigger | InnerTop | InnerWait | SwapQueue => true
    case SendNext | BatchEnd | Probe => true
    case _ => false
  }

  ghost predicate HubInv(s: State) {
    && s.l.observed == s.w.host
    && (s.l.observed == NoHub || s.l.observed == s.w.lastHub)
    && (Dialling(s.w.pc) ==> s.w.host != NoHub)
    && (forall c :: c in s.sh.pending ==> c.hub == NoHub || c.hub == s.l.observed || s.w.pc == ClearQueue)
    && (s.w.batch != [] ==> s.w.pc == SendNext)
    && (forall c :: c in s.w.batch ==> c.hub == NoHub || c.hub == s.w.host)
    && (forall a :: a in s.l.tried ==> a.hub != NoHub && (a.cmd.hub == NoHub || a.cmd.hub == a.hub))
  }

  lemma HubSkip(s: State, cause: Cause)
    requires HubInv(s) && s.w.pc == SendNext && s.w.batch != []
    ensures HubInv(SkipHead(s, cause))
  {
    assert forall c :: c in s.w.batch[1..] ==> c in s.w.batch;
  }

  lemma HubTry(s: State, ok: bool)
    requires HubInv(s) && s.w.pc == SendNext && s.w.batch != []
    ensures HubInv(TryHead(s, ok))
  {
    assert s.w.batch[0] in s.w.batch;
    assert forall c :: c in s.w.batch[1..] ==> c in s.w.batch;
  }

  lemma HubSend(s: State, ok: bool)
    requires HubInv(s) && s.w.pc == SendNext && s.w.batch != []
    ensures HubInv(SendStep(s, ok))
  {
    var c := s.w.batch[0];
    assert c in s.w.batch;
    if s.sh.stop {
      assert AbortBatch(s).w.batch == [];
    } else if c.kind != Release && s.w.now - c.enqueuedAt > s.maxAge {
      HubSkip(s, Stale);
    } else if s.w.failed && c.kind != Release {
      HubSkip(s, DeadTransport);
    } else {
      HubTry(s, ok);
    }
  }

  lemma HubConnecting(s: State, ok: bool, clock: int)
    requires HubInv(s) && Connecting(s.w.pc)
    ensures HubInv(LoopStep(s, ok, clock))
  {
  }

  lemma HubConnected(s: State, ok: bool, clock: int)
    requires HubInv(s) && !Connecting(s.w.pc) && (s.w.pc == SendNext ==> s.w.batch == [])
    ensures HubInv(LoopStep(s, ok, clock))
  {
  }

  lemma HubLoop(s: State, ok: bool, clock: int)
    requires HubInv(s)
    ensures HubInv(LoopStep(s, ok, clock))
  {
    if Connecting(s.w.pc) {
      HubConnecting(s, ok, clock);
    } else if s.w.pc == SendNext && s.w.batch != [] {
      HubSend(s, ok);
    } else {
      HubConnected(s, ok, clock);
    }
  }

  // ---- over whole runs ----

  ghost predicate Inv(s: State) {
    TriggerInv(s) && Accounted(s) && OrderInv(s) && ReportInv(s) && HubInv(s)
  }

  lemma InitInv(maxAge: int, setting: Hub)
    ensures Inv(Init(maxAge, setting))
  {
    var s := Init(maxAge, setting);
    assert TriggerInv(s) && ReportInv(s);
    InitOrder(s);
  }

  lemma InitOrder(s: State)
    requires s == Init(s.maxAge, s.sh.setting)
    ensures OrderInv(s)
  {
    assert Line(s) == [];
  }

  lemma StepInv(s: State, e: Event)
    requires Inv(s)
    ensures Inv(Apply(s, e))
  {
    TriggerInvStep(s, e);
    match e
    case Loop(ok, clock) =>
      forall c ensures Found(LoopStep(s, ok, clock), c) == Found(s, c) { LoopKeepsFound(s, ok, clock, c); }
      LoopKeepsEnqueued(s, ok, clock);
      OrderLoop(s, ok, clock);
      ReportLoop(s, ok, clock);
      HubLoop(s, ok, clock);
    case Enqueue(kind, at) =>
      if !s.sh.locked {
        EnqueueInv(s, kind, at);
      }
    case _ =>
      OtherInv(s, e);
  }

  lemma LoopKeepsEnqueued(s: State, ok: bool, clock: int)
    ensures LoopStep(s, ok, clock).l.enqueued == s.l.enqueued
  {
  }

  lemma EnqueueInv(s: State, kind: Kind, at: int)
    requires Inv(s)
    ensures var t := EnqueueStep(s, kind, at); Accounted(t) && OrderInv(t) && ReportInv(t) && HubInv(t)
  {
    var t := EnqueueStep(s, kind, at);
    forall c ensures Found(t, c) == Times(t.l.enqueued, c) { EnqueueKeepsFound(s, kind, at, c); }
    OrderEnqueue(s, kind, at);
  }

  lemma OtherInv(s: State, e: Event)
    requires Inv(s) && !e.Loop? && !e.Enqueue?
    ensures var t := Apply(s, e); Accounted(t) && OrderInv(t) && ReportInv(t) && HubInv(t)
  {
    var t := Apply(s, e);
    assert Line(t) == Line(s);
    assert forall c :: Found(t, c) == Found(s, c);
  }

  lemma {:induction false} RunInv(s: State, events: seq<Event>)
    requires Inv(s)
    ensures Inv(Run(s, events))
    decreases |events|
  {
    if events != [] {
      StepInv(s, events[0]);
      RunInv(Apply(s, events[0]), events[1..]);
    }
  }

  // ======================= the main results =======================

  function One(b: bool): nat { if b then 1 else 0 }

  lemma {:induction false} TimesDistinct(cs: seq<Command>, c: Command)
    requires forall i, j :: 0 <= i < j < |cs| ==> cs[i].id != cs[j].id
    ensures Times(cs, c) == One(c in cs)
    decreases |cs|
  {
    if cs != [] {
      TimesDistinct(cs[1..], c);
      assert cs == [cs[0]] + cs[1..];
      TimesConcat([cs[0]], cs[1..], c);
      assert forall j :: 0 <= j < |cs[1..]| ==> cs[1..][j] == cs[j + 1];
    }
  }

  /** At every point of every run, each command ever queued is in exactly one of: the queue, the
      batch being sent, the commands the hub accepted, the ones evicted by the cap, the ones lost. */
  lemma EveryCommandInOnePlace(maxAge: int, setting: Hub, events: seq<Event>, k: nat)
    requires k < |Run(Init(maxAge, setting), events).l.enqueued|
    ensures var s := Run(Init(maxAge, setting), events);
            var c := s.l.enqueued[k];
            c.id == k
            && 1 == One(c in s.sh.pending) + One(c in s.w.batch) + One(c in SentCommands(s.l.tried))
                    + One(c in s.l.evicted) + One(c in LostCommands(s.l.lost))
  {
    InitInv(maxAge, setting);
    RunInv(Init(maxAge, setting), events);
    var s := Run(Init(maxAge, setting), events);
    var c := s.l.enqueued[k];
    TimesDistinct(s.l.enqueued, c);
    assert Found(s, c) == 1;
  }

  lemma {:induction false} SentIncreasing(tried: seq<Attempt>)
    requires Increasing(TriedCommands(tried))
    ensures Increasing(SentCommands(tried))
    ensures forall c :: c in SentCommands(tried) ==> c in TriedCommands(tried)
    decreases |tried|
  {
    if tried != [] {
      var n := |tried| - 1;
      var init := TriedCommands(tried[..n]);
      assert TriedCommands(tried) == init + [tried[n].cmd];
      assert forall i :: 0 <= i < n ==> init[i] == TriedCommands(tried)[i];
      SentIncreasing(tried[..n]);
      forall c | c in init ensures c.id < tried[n].cmd.id {
        var i :| 0 <= i < n && init[i] == c;
        assert TriedCommands(tried)[n] == tried[n].cmd;
      }
    }
  }

  /** The hub receives commands in the order they were queued, each at most once, and never one
      that was not queued. */
  lemma SentInEnqueueOrder(maxAge: int, setting: Hub, events: seq<Event>)
    ensures var s := Run(Init(maxAge, setting), events);
            var sent := SentCommands(s.l.tried);
            && (forall i, j :: 0 <= i < j < |sent| ==> sent[i].id < sent[j].id)
            && (forall i :: 0 <= i < |sent| ==> sent[i].id < |s.l.enqueued| && s.l.enqueued[sent[i].id] == sent[i])
  {
    InitInv(maxAge, setting);
    RunInv(Init(maxAge, setting), events);
    var s := Run(Init(maxAge, setting), events);
    var sent := SentCommands(s.l.tried);
    assert forall i :: 0 <= i < |s.l.tried| ==> TriedCommands(s.l.tried)[i] == Line(s)[i];
    SentIncreasing(s.l.tried);
    forall i | 0 <= i < |sent| ensures sent[i].id < |s.l.enqueued| && s.l.enqueued[sent[i].id] == sent[i] {
      SentWasEnqueued(s, sent[i]);
    }
  }

  lemma SentWasEnqueued(s: State, c: Command)
    requires Accounted(s) && OrderInv(s) && c in SentCommands(s.l.tried)
    ensures c.id < |s.l.enqueued| && s.l.enqueued[c.id] == c
  {
    assert Found(s, c) >= Times(SentCommands(s.l.tried), c) > 0;
    assert c in s.l.enqueued;
  }

  /** Whenever the loop is not on its way to a publish, every loss so far has been reported, by no
      more events than there were losses; and no release was lost but with its hub, to a stop,
      or after an attempt of its own. */
  lemma EveryLossReported(maxAge: int, setting: Hub, events: seq<Event>)
    ensures var s := Run(Init(maxAge, setting), events);
            && (!Unreported(s.w) ==> s.l.reported == |s.l.lost|)
            && (s.w.pc in {IdleSleep, RetrySleep, InnerWait, Connect, Stopped} ==> s.l.reported == |s.l.lost|)
            && s.l.events <= s.l.reported
            && (forall i :: 0 <= i < |s.l.lost| ==> Excused(s.l.lost[i], s.l.tried))
  {
    InitInv(maxAge, setting);
    RunInv(Init(maxAge, setting), events);
  }

  function StepsToReport(w: Worker): nat {
    match w.pc
    case SendNext => |w.batch| + 2
    case BatchEnd => 1
    case _ => 0
  }

  /** An unreported loss is reported by the loop's own next actions, whatever they learn. */
  lemma UnreportedArrives(s: State, ok: bool, clock: int)
    requires Unreported(s.w)
    ensures var t := LoopStep(s, ok, clock);
            t.l.reported == |t.l.lost| || (Unreported(t.w) && StepsToReport(t.w) < StepsToReport(s.w))
  {
    if s.w.pc == SendNext && s.w.batch != [] {
      assert |s.w.batch[1..]| < |s.w.batch|;
    }
  }

  lemma ReportedGrows(s: State, e: Event)
    requires ReportInv(s)
    ensures |s.l.lost| <= |Apply(s, e).l.lost| && s.l.reported <= Apply(s, e).l.reported
  {
    if e.Loop? && s.w.pc == SendNext && s.w.batch != [] {
      assert |SendStep(s, e.ok).l.lost| >= |s.l.lost|;
    }
  }

  lemma ForeignKeepsReport(s: State, e: Event)
    requires Unreported(s.w) && !e.Loop?
    ensures Apply(s, e).w == s.w && Apply(s, e).l.lost == s.l.lost
  {
  }

  /** `lost` losses are reported, or the loop is on its way to the publish that covers them. */
  ghost predicate Covered(s: State, lost: nat, actions: int) {
    s.l.reported >= lost || (lost <= |s.l.lost| && Unreported(s.w) && StepsToReport(s.w) < actions)
  }

  lemma CoveredStep(s: State, e: Event, lost: nat, actions: int)
    requires Inv(s) && Covered(s, lost, actions)
    ensures Covered(Apply(s, e), lost, actions - LoopActions([e]))
  {
    assert LoopActions([e]) == if e.Loop? then 1 else 0;
    ReportedGrows(s, e);
    if s.l.reported < lost {
      if e.Loop? {
        UnreportedArrives(s, e.ok, e.clock);
      } else {
        ForeignKeepsReport(s, e);
      }
    }
  }

  lemma {:induction false} CoveredRun(s: State, events: seq<Event>, lost: nat, actions: int)
    requires Inv(s) && Covered(s, lost, actions)
    ensures Covered(Run(s, events), lost, actions - LoopActions(events))
    decreases |events|
  {
    if events != [] {
      var e := events[0];
      CoveredStep(s, e, lost, actions);
      StepInv(s, e);
      assert LoopActions(events) == LoopActions([e]) + LoopActions(events[1..]);
      CoveredRun(Apply(s, e), events[1..], lost, actions - LoopActions([e]));
    }
  }

  /** In every interleaving, stops included, everything lost so far has been reported by the time the loop
      has taken a fixed number of actions. */
  lemma LossesAreReportedInTime(maxAge: int, setting: Hub, before: seq<Event>, after: seq<Event>)
    requires LoopActions(after) > MAX_PENDING_COMMANDS + 2
    ensures var s := Run(Init(maxAge, setting), before); Run(s, after).l.reported >= |s.l.lost|
  {
    InitInv(maxAge, setting);
    RunInv(Init(maxAge, setting), before);
    LoopInvRun(Init(maxAge, setting), before);
    var s := Run(Init(maxAge, setting), before);
    CoveredRun(s, after, |s.l.lost|, MAX_PENDING_COMMANDS + 3);
  }

  // ---- a release in a drained batch is attempted ----

  ghost predicate Drained(s: State, c: Command) {
    && !s.sh.stop && c.kind == Release && c.id < |s.l.enqueued|
    && c !in s.sh.pending
    && (c in s.w.batch || c in TriedCommands(s.l.tried))
    && (s.w.batch != [] ==> s.w.pc == SendNext)
  }

  lemma DrainedSend(s: State, c: Command, ok: bool)
    requires Drained(s, c) && s.w.batch != []
    ensures Drained(SendStep(s, ok), c)
  {
    assert s.w.batch == [s.w.batch[0]] + s.w.batch[1..];
    SentAppend(s.l.tried, Attempt(s.w.batch[0], s.w.host, ok));
  }

  lemma DrainedConnecting(s: State, c: Command, ok: bool, clock: int)
    requires Drained(s, c) && Connecting(s.w.pc)
    ensures Drained(LoopStep(s, ok, clock), c)
  {
  }

  lemma DrainedConnected(s: State, c: Command, ok: bool, clock: int)
    requires Drained(s, c) && !Connecting(s.w.pc)
    ensures Drained(LoopStep(s, ok, clock), c)
  {
    if s.w.pc == SendNext && s.w.batch != [] {
      DrainedSend(s, c, ok);
    }
  }

  lemma BatchShrinks(s: State, c: Command, e: Event)
    requires Drained(s, c)
    ensures var t := Apply(s, e);
            c in t.w.batch ==> (c in s.w.batch && |t.w.batch| + LoopActions([e]) <= |s.w.batch|)
  {
    assert LoopActions([e]) == if e.Loop? then 1 else 0;
    if e.Loop? {
      if s.w.batch == [] {
        NewBatch(s, e.ok, e.clock);
      } else {
        SendShrinks(s, e.ok);
      }
    }
  }

  lemma NewBatch(s: State, ok: bool, clock: int)
    requires s.w.batch == []
    ensures LoopStep(s, ok, clock).w.batch == if s.w.pc == SwapQueue then s.sh.pending else []
  {
  }

  lemma DrainedStep(s: State, c: Command, e: Event)
    requires Drained(s, c) && e != RequestStop
    ensures Drained(Apply(s, e), c)
  {
    if e.Loop? {
      if Connecting(s.w.pc) {
        DrainedConnecting(s, c, e.ok, e.clock);
      } else {
        DrainedConnected(s, c, e.ok, e.clock);
      }
    }
  }

  /** A release that is in the queue when the loop takes a batch is handed to SendText, in every
      interleaving in which no stop is requested: it waits in the batch for no more of the loop's actions
      than the batch holds commands. */
  lemma {:induction false} ReleaseAttempted(s: State, c: Command, clock: int, events: seq<Event>)
    requires s.w.pc == SwapQueue && OrderInv(s) && !s.sh.stop
    requires c in s.sh.pending && c.kind == Release
    requires RequestStop !in events
    ensures var t := Run(SwapStep(s, clock), events);
            && (c in t.w.batch || c in TriedCommands(t.l.tried))
            && (LoopActions(events) >= |s.sh.pending| ==> c in TriedCommands(t.l.tried))
  {
    assert c in Line(s);
    DrainedRun(SwapStep(s, clock), c, events);
  }

  lemma {:induction false} DrainedRun(s: State, c: Command, events: seq<Event>)
    requires Drained(s, c) && RequestStop !in events
    ensures var t := Run(s, events);
            && Drained(t, c)
            && (c in t.w.batch ==> (c in s.w.batch && |t.w.batch| + LoopActions(events) <= |s.w.batch|))
    decreases |events|
  {
    if events != [] {
      assert events[0] in events;
      DrainedStep(s, c, events[0]);
      BatchShrinks(s, c, events[0]);
      assert LoopActions(events) == LoopActions([events[0]]) + LoopActions(events[1..]);
      DrainedRun(Apply(s, events[0]), c, events[1..]);
    }
  }

  // ---- a command never reaches a hub it was not meant for ----

  /** Every SendText of every run goes to the hub the loop was observing when the command was queued,
      or carries a command queued while no hub was observed. */
  lemma SentToItsOwnHub(maxAge: int, setting: Hub, events: seq<Event>)
    ensures var s := Run(Init(maxAge, setting), events);
            forall a :: a in s.l.tried ==> a.hub != NoHub && (a.cmd.hub == NoHub || a.cmd.hub == a.hub)
  {
    InitInv(maxAge, setting);
    RunInv(Init(maxAge, setting), events);
  }

  ghost predicate Doomed(s: State, c: Command) {
    && c.id < |s.l.enqueued|
    && (c in s.sh.pending ==> s.w.pc == ClearQueue)
    && c !in s.w.batch && c !in TriedCommands(s.l.tried)
  }

  lemma DoomedSend(s: State, c: Command, ok: bool)
    requires Doomed(s, c) && s.w.batch != [] && s.w.pc == SendNext
    ensures Doomed(SendStep(s, ok), c)
  {
    assert s.w.batch[0] in s.w.batch;
    SentAppend(s.l.tried, Attempt(s.w.batch[0], s.w.host, ok));
  }

  lemma DoomedConnecting(s: State, c: Command, ok: bool, clock: int)
    requires Doomed(s, c) && Connecting(s.w.pc)
    ensures Doomed(LoopStep(s, ok, clock), c)
  {
  }

  lemma DoomedConnected(s: State, c: Command, ok: bool, clock: int)
    requires Doomed(s, c) && !Connecting(s.w.pc)
    ensures Doomed(LoopStep(s, ok, clock), c)
  {
    if s.w.pc == SendNext && s.w.batch != [] {
      DoomedSend(s, c, ok);
    }
  }

  lemma DoomedStep(s: State, c: Command, e: Event)
    requires Doomed(s, c)
    ensures Doomed(Apply(s, e), c)
  {
    if e.Loop? {
      if Connecting(s.w.pc) {
        DoomedConnecting(s, c, e.ok, e.clock);
      } else {
        DoomedConnected(s, c, e.ok, e.clock);
      }
    }
  }

  lemma {:induction false} DoomedRun(s: State, c: Command, events: seq<Event>)
    requires Doomed(s, c)
    ensures Doomed(Run(s, events), c)
    decreases |events|
  {
    if events != [] {
      DoomedStep(s, c, events[0]);
      DoomedRun(Apply(s, events[0]), c, events[1..]);
    }
  }

  /** A command in the queue when the loop reads that the previous hub was removed or replaced is never
      passed to SendText, whatever happens afterwards. */
  lemma NoCrossHubDelivery(s: State, c: Command, ok: bool, clock: int, events: seq<Event>)
    requires Inv(s) && s.w.pc == ReadHost
    requires s.w.lastHub != NoHub && s.sh.setting != s.w.lastHub
    requires c in s.sh.pending
    ensures c !in TriedCommands(Run(Apply(s, Loop(ok, clock)), events).l.tried)
  {
    var line := Line(s);
    var head := |line| - |s.sh.pending|;
    var k :| 0 <= k < |s.sh.pending| && s.sh.pending[k] == c;
    assert line[head + k] == c;
    forall i | 0 <= i < |s.l.tried| ensures TriedCommands(s.l.tried)[i] != c {
      assert line[i] == TriedCommands(s.l.tried)[i];
    }
    DoomedRun(Apply(s, Loop(ok, clock)), c, events);
  }
}
