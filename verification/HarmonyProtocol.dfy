/** The Harmony connection loop, interleaved with every other thread that touches it
    (src/core/harmony_connection.cpp, src/core/harmony_connection.h).

    One event is one atomic action: a section under the wake mutex, a single storage access, or
    a single network call whose outcome is free. `Apply` is total; an event that its thread
    cannot perform (a UI thread waiting for the wake mutex, a restart of a running loop) leaves
    the state alone. Properties hold of `Run(Init(..), events)` for every sequence of events. */
module HarmonyProtocol {
  import opened ConnectionWakes

  const MAX_PENDING_COMMANDS := 20

  /** The stored hub address; absent and empty both mean that no hub is configured. */
  datatype Hub = NoHub | Hub(address: string)

  datatype Kind = StartActivity | Press | Hold | Release

  /** `id` is the command's position in the enqueue order; `hub` is history: the hub the loop
      had last observed in the settings when the command was queued. */
  datatype Command = Command(id: nat, kind: Kind, enqueuedAt: int, hub: Hub)

  /** One call of SendText for a command, on the connection to `hub`. */
  datatype Attempt = Attempt(cmd: Command, hub: Hub, ok: bool)

  datatype Cause = HubChanged | Shutdown | StopMidBatch | Stale | DeadTransport | SendFailed

  datatype Loss = Loss(cmd: Command, cause: Cause)

  /** Where the loop thread stands, named after what it does next. */
  datatype Pc =
    | Top | ReadHost | ClearQueue | ReportCleared | IdleSleep
    | Connect | RetrySleep
    | LockWake | RereadHost | DiscardTrigger
    | InnerTop | InnerWait | SwapQueue | SendNext | BatchEnd | ReportAbort | Probe | CloseSocket
    | DrainQueue | ReportDrained | Stopped

  /** What other threads touch: the setting, the trigger flag, the stop token, the wake mutex
      (held by the loop across two of its actions), and the command queue. */
  datatype Shared = Shared(setting: Hub, requested: bool, stop: bool, locked: bool, pending: seq<Command>)

  /** The loop thread's own variables. */
  datatype Worker = Worker(pc: Pc, host: Hub, lastHub: Hub, satisfied: bool, reason: Reason,
                           batch: seq<Command>, now: int, stale: bool, failed: bool, mustReport: bool)

  /** History: what the loop last observed, whether a reconnect is owed, and the fate of every
      command. `reported` counts the losses covered by a published HarmonyCommandDroppedEvent. */
  datatype Ledger = Ledger(observed: Hub, owed: bool, enqueued: seq<Command>, tried: seq<Attempt>,
                           evicted: seq<Command>, lost: seq<Loss>, reported: nat, events: nat)

  datatype State = State(maxAge: int, sh: Shared, w: Worker, l: Ledger)

  datatype Event =
    | WriteSetting(value: Hub)
    | TriggerReconnect
    | Enqueue(kind: Kind, at: int)
    | RequestStop
    | Restart
    | Loop(ok: bool, clock: int)  // the loop's next action; ok and clock resolve what it learns

  function Init(maxAge: int, setting: Hub): State {
    State(maxAge, Shared(setting, false, false, false, []),
          Worker(Top, NoHub, NoHub, false, Timeout, [], 0, false, false, false),
          Ledger(NoHub, false, [], [], [], [], 0, 0))
  }

  function LossesOf(commands: seq<Command>, cause: Cause): seq<Loss> {
    seq(|commands|, i requires 0 <= i < |commands| => Loss(commands[i], cause))
  }

  function LostCommands(losses: seq<Loss>): seq<Command> {
    seq(|losses|, i requires 0 <= i < |losses| => losses[i].cmd)
  }

  /** The commands the hub accepted, in the order they were sent. */
  function SentCommands(tried: seq<Attempt>): seq<Command> {
    if tried == [] then []
    else
      var last := tried[|tried| - 1];
      SentCommands(tried[..|tried| - 1]) + (if last.ok then [last.cmd] else [])
  }

  // ---- the other threads ----

  function EnqueueStep(s: State, kind: Kind, at: int): State {
    var c := Command(|s.l.enqueued|, kind, at, s.l.observed);
    var queue := s.sh.pending + [c];
    var over := if |queue| > MAX_PENDING_COMMANDS then |queue| - MAX_PENDING_COMMANDS else 0;
    s.(sh := s.sh.(pending := queue[over..]),
       l := s.l.(evicted := s.l.evicted + queue[..over], enqueued := s.l.enqueued + [c]))
  }

  // ---- the loop ----

  function Goto(s: State, pc: Pc): State {
    s.(w := s.w.(pc := pc))
  }

  function PublishIf(l: Ledger, due: bool): Ledger {
    if due then l.(reported := |l.lost|, events := l.events + 1) else l
  }

  function ReadHostStep(s: State): State {
    var v := s.sh.setting;
    var mustClear := s.w.lastHub != NoHub && v != s.w.lastHub;
    s.(w := s.w.(host := v, lastHub := if v == NoHub then s.w.lastHub else v,
                 pc := if mustClear then ClearQueue else if v == NoHub then IdleSleep else Connect),
       l := s.l.(observed := v, owed := false))
  }

  function LoseQueue(s: State, cause: Cause, next: Pc): State {
    s.(sh := s.sh.(pending := []),
       w := s.w.(mustReport := s.sh.pending != [], pc := next),
       l := s.l.(lost := s.l.lost + LossesOf(s.sh.pending, cause)))
  }

  function ReportStep(s: State, due: bool, next: Pc): State {
    s.(w := s.w.(mustReport := false, stale := false, failed := false, pc := next), l := PublishIf(s.l, due))
  }

  function SleepStep(s: State): State {
    var (reason, requested) := WaitOutcome(s.sh.requested, s.sh.stop, false);
    s.(sh := s.sh.(requested := requested), w := s.w.(pc := Top))
  }

  function InnerWaitStep(s: State): State {
    var (reason, requested) := WaitOutcome(s.sh.requested, s.sh.stop, s.sh.pending != []);
    s.(sh := s.sh.(requested := requested),
       w := s.w.(reason := reason, pc := if reason == StopRequested then CloseSocket else SwapQueue))
  }

  function SwapStep(s: State, clock: int): State {
    s.(sh := s.sh.(pending := []),
       w := s.w.(batch := s.sh.pending, now := clock, stale := false, failed := false, pc := SendNext))
  }

  /** A stop seen between two sends gives up the rest of the batch. */
  function AbortBatch(s: State): State {
    s.(w := s.w.(batch := [], mustReport := true, pc := ReportAbort),
       l := s.l.(lost := s.l.lost + LossesOf(s.w.batch, StopMidBatch)))
  }

  function SkipHead(s: State, cause: Cause): State
    requires s.w.batch != []
  {
    s.(w := s.w.(batch := s.w.batch[1..], stale := s.w.stale || cause == Stale),
       l := s.l.(lost := s.l.lost + LossesOf([s.w.batch[0]], cause)))
  }

  function TryHead(s: State, ok: bool): State
    requires s.w.batch != []
  {
    var c := s.w.batch[0];
    s.(w := s.w.(batch := s.w.batch[1..], failed := s.w.failed || !ok),
       l := s.l.(tried := s.l.tried + [Attempt(c, s.w.host, ok)],
                 lost := s.l.lost + (if ok then [] else LossesOf([c], SendFailed))))
  }

  function SendStep(s: State, ok: bool): State
    requires s.w.batch != []
  {
    var c := s.w.batch[0];
    if s.sh.stop then AbortBatch(s)
    else if c.kind != Release && s.w.now - c.enqueuedAt > s.maxAge then SkipHead(s, Stale)
    else if s.w.failed && c.kind != Release then SkipHead(s, DeadTransport)
    else TryHead(s, ok)
  }

  function AfterBatch(w: Worker): Pc {
    if w.failed || w.reason == Triggered then CloseSocket
    else if w.reason == CommandPending then InnerTop
    else Probe
  }

  function LoopStep(s: State, ok: bool, clock: int): State {
    match s.w.pc
    case Top => Goto(s, if s.sh.stop then DrainQueue else ReadHost)
    case ReadHost => ReadHostStep(s)
    case ClearQueue => LoseQueue(s, HubChanged, ReportCleared)
    case ReportCleared => ReportStep(s, s.w.mustReport, if s.w.host == NoHub then IdleSleep else Connect)
    case IdleSleep => SleepStep(s)
    case Connect => Goto(s, if ok then LockWake else RetrySleep)
    case RetrySleep => SleepStep(s)
    case LockWake => s.(sh := s.sh.(locked := true), w := s.w.(pc := RereadHost))
    case RereadHost => s.(w := s.w.(satisfied := s.sh.setting == s.w.host, pc := DiscardTrigger))
    case DiscardTrigger =>
      s.(sh := s.sh.(requested := s.sh.requested && !s.w.satisfied, locked := false), w := s.w.(pc := InnerTop))
    case InnerTop => Goto(s, if s.sh.stop then CloseSocket else InnerWait)
    case InnerWait => InnerWaitStep(s)
    case SwapQueue => SwapStep(s, clock)
    case SendNext => if s.w.batch == [] then Goto(s, BatchEnd) else SendStep(s, ok)
    case BatchEnd => ReportStep(s, s.w.stale || s.w.failed, AfterBatch(s.w))
    case ReportAbort => ReportStep(s, s.w.mustReport, CloseSocket)
    case Probe => Goto(s, if ok then InnerTop else CloseSocket)
    case CloseSocket => Goto(s, Top)
    case DrainQueue => LoseQueue(s, Shutdown, ReportDrained)
    case ReportDrained => ReportStep(s, s.w.mustReport, Stopped)
    case Stopped => s
  }

  function Apply(s: State, e: Event): State {
    match e
    case WriteSetting(v) => s.(sh := s.sh.(setting := v), l := s.l.(owed := s.l.owed && v != s.w.host))
    case TriggerReconnect =>
      if s.sh.locked then s
      else s.(sh := s.sh.(requested := true), l := s.l.(owed := s.l.owed || s.sh.setting != s.w.host))
    case Enqueue(kind, at) => if s.sh.locked then s else EnqueueStep(s, kind, at)
    case RequestStop => s.(sh := s.sh.(stop := true))
    case Restart => if s.w.pc == Stopped then s.(sh := s.sh.(stop := false), w := s.w.(pc := Top)) else s
    case Loop(ok, clock) => LoopStep(s, ok, clock)
  }

  function Run(s: State, events: seq<Event>): State
    decreases |events|
  {
    if events == [] then s else Run(Apply(s, events[0]), events[1..])
  }

  lemma RunSnoc(s: State, events: seq<Event>, e: Event)
    ensures Run(s, events + [e]) == Apply(Run(s, events), e)
  {
    RunConcat(s, events, [e]);
    assert Run(Run(s, events), [e]) == Run(Apply(Run(s, events), e), []);
  }

  lemma {:induction false} RunConcat(s: State, a: seq<Event>, b: seq<Event>)
    ensures Run(s, a + b) == Run(Run(s, a), b)
    decreases |a|
  {
    if a == [] {
      assert a + b == b;
    } else {
      assert (a + b)[1..] == a[1..] + b;
      RunConcat(Apply(s, a[0]), a[1..], b);
    }
  }
}
