/** The Harmony connection manager's methods on its own fields, each tied to the actions of
    HarmonyProtocol (src/core/harmony_connection.cpp). */
module HarmonyConnections {
  import opened ConnectionWakes
  import opened HarmonyProtocol

  class HarmonyConnection {
    const maxAge: int
    const wake: ConnectionWake
    // The hub_host setting, the stop token and the wake mutex, all shared with other threads.
    var setting: Hub
    var stop: bool
    var locked: bool
    var pending: seq<Command>
    // Every SendText of a command and every HarmonyCommandDroppedEvent, in the order they happened.
    var wire: seq<Attempt>
    var dropEvents: nat
    // The hub the open socket is connected to.
    var host: Hub
    // Where the loop stands and what has become of every command.
    ghost var w: Worker
    ghost var l: Ledger

    ghost predicate Valid()
      reads this
    {
      l.tried == wire && l.events == dropEvents && w.host == host
    }

    ghost function View(): State
      reads this, wake
    {
      State(maxAge, Shared(setting, wake.requested, stop, locked, pending), w, l)
    }

    constructor (maxAge: int, setting: Hub)
      ensures Valid() && View() == Init(maxAge, setting) && fresh(wake)
    {
      this.maxAge := maxAge;
      this.setting := setting;
      wake := new ConnectionWake();
      stop, locked, pending, wire, dropEvents, host := false, false, [], [], 0, NoHub;
      w := Init(maxAge, setting).w;
      l := Init(maxAge, setting).l;
    }

    method Reconnect()
      requires Valid() && !locked
      modifies this, wake
      ensures Valid() && View() == Apply(old(View()), TriggerReconnect)
    {
      wake.Trigger();
      l := l.(owed := l.owed || setting != w.host);
    }

    /** The oldest commands go until the rest fit. */
    method TrimPending()
      modifies this`pending
      ensures var queue := old(pending);
              var over := if |queue| > MAX_PENDING_COMMANDS then |queue| - MAX_PENDING_COMMANDS else 0;
              pending == queue[over..]
    {
      ghost var queue := pending;
      while |pending| > MAX_PENDING_COMMANDS
        invariant |pending| <= |queue| && pending == queue[|queue| - |pending|..]
        invariant |queue| > MAX_PENDING_COMMANDS ==> |pending| >= MAX_PENDING_COMMANDS
        invariant |queue| <= MAX_PENDING_COMMANDS ==> pending == queue
      {
        pending := pending[1..];
      }
    }

    /** The command carries its history stamps: its place in the enqueue order and the observed hub. */
    method EnqueueCommand(command: Command)
      requires Valid() && !locked && |pending| <= MAX_PENDING_COMMANDS
      requires command.id == |l.enqueued| && command.hub == l.observed
      modifies this
      ensures Valid() && View() == Apply(old(View()), Enqueue(command.kind, command.enqueuedAt))
    {
      pending := pending + [command];
      ghost var queue := pending;
      TrimPending();
      l := l.(evicted := l.evicted + queue[..|queue| - |pending|], enqueued := l.enqueued + [command]);
    }

    method ClearPendingCommandsIfAny()
      requires Valid() && !locked && w.pc == ClearQueue
      modifies this
      ensures Valid() && View() == Run(old(View()), [Loop(true, 0), Loop(true, 0)])
    {
      ghost var before := View();
      var hadCommands := pending != [];
      pending := [];
      w, l := LoopStep(before, true, 0).w, LoopStep(before, true, 0).l;
      if hadCommands {
        dropEvents := dropEvents + 1;
      }
      w, l := LoopStep(View(), true, 0).w, LoopStep(View(), true, 0).l;
      RunTwo(before, Loop(true, 0), Loop(true, 0));
    }

    /** The section after a connect that tells an answered trigger from a newer one. */
    method DiscardSatisfiedTrigger(connectedTo: Hub)
      requires Valid() && w.pc == LockWake && w.host == connectedTo
      modifies this, wake
      ensures Valid() && View() == Run(old(View()), [Loop(true, 0), Loop(true, 0), Loop(true, 0)])
    {
      ghost var before := View();
      var hubUnchanged := setting == connectedTo;
      if hubUnchanged {
        wake.ClearTriggerLocked();
      }
      locked := false;
      w := w.(satisfied := hubUnchanged, pc := InnerTop);
      RunTwo(before, Loop(true, 0), Loop(true, 0));
      RunSnoc(before, [Loop(true, 0), Loop(true, 0)], Loop(true, 0));
      assert [Loop(true, 0), Loop(true, 0)] + [Loop(true, 0)] == [Loop(true, 0), Loop(true, 0), Loop(true, 0)];
    }

    /** One command of a batch: dropped when stale or behind a dead transport, unless it is a release. */
    method SendOrDrop(command: Command, now: int, accepted: bool, staleBefore: bool, failedBefore: bool)
      returns (staleDropped: bool, transportFailed: bool)
      modifies this`wire
      ensures staleDropped == (staleBefore || IsStale(command, now))
      ensures transportFailed == (failedBefore || (Attempted(command, now, failedBefore) && !accepted))
      ensures wire == if Attempted(command, now, failedBefore) then old(wire) + [Attempt(command, host, accepted)]
                      else old(wire)
      ensures forall from :: 0 <= from <= |old(wire)| && AllAccepted(old(wire), from) == !failedBefore ==>
                AllAccepted(wire, from) == !transportFailed
    {
      staleDropped, transportFailed := staleBefore, failedBefore;
      var isRelease := command.kind == Release;
      if !isRelease && now - command.enqueuedAt > maxAge {
        staleDropped := true;
        return;
      }
      if transportFailed && !isRelease {
        return;
      }
      forall from | 0 <= from <= |wire|
        ensures AllAccepted(wire + [Attempt(command, host, accepted)], from) <==> AllAccepted(wire, from) && accepted
      {
        AcceptedAppend(wire, from, Attempt(command, host, accepted));
      }
      wire := wire + [Attempt(command, host, accepted)];
      if !accepted {
        transportFailed := true;
      }
    }

    /** One turn of the batch loop, with the action of the protocol it is. */
    method SendOne(command: Command, now: int, sent: bool, staleBefore: bool, failedBefore: bool,
                   ghost s: State, ghost t: State, ghost events: seq<Event>, ghost from: nat)
      returns (staleDropped: bool, transportFailed: bool, ghost u: State)
      requires t == Run(s, events) && Matches(t) && t.w.pc == SendNext && !t.sh.stop
      requires t.w.batch != [] && t.w.batch[0] == command && t.w.now == now && t.w.host == host
      requires t.w.stale == staleBefore && t.w.failed == failedBefore
      requires from <= |wire| && AllAccepted(wire, from) == !failedBefore
      modifies this`wire
      ensures u == Run(s, events + [Loop(sent, 0)]) && Matches(u) && u.sh == t.sh
      ensures u.w == t.w.(batch := t.w.batch[1..], stale := staleDropped, failed := transportFailed)
      ensures |old(wire)| <= |wire| && AllAccepted(wire, from) == !transportFailed
    {
      u := CommandDone(s, t, events, sent);
      staleDropped, transportFailed := SendOrDrop(command, now, sent, staleBefore, failedBefore);
    }

    predicate IsStale(c: Command, now: int) {
      c.kind != Release && now - c.enqueuedAt > maxAge
    }

    predicate Attempted(c: Command, now: int, failed: bool) {
      !IsStale(c, now) && (c.kind == Release || !failed)
    }

    /** The loop over a batch already taken from the queue, up to its end or to a stop. `polls(k)` tells
        whether a stop has been requested by the k-th check of the stop token, `sends(k)` whether
        SendText succeeds for the k-th command; between them they stand for everything the
        environment may do to this thread. `s` is where the protocol stands when the batch starts. */
    method SendBatch(commands: seq<Command>, now: int, polls: nat -> bool, sends: nat -> bool, ghost s: State)
      returns (aborted: bool, staleDropped: bool, transportFailed: bool,
               ghost events: seq<Event>, ghost t: State)
      requires Matches(s) && s.w.pc == SendNext && s.w.batch == commands && s.w.now == now && s.w.host == host
      requires !s.w.stale && !s.w.failed
      modifies this`stop, this`wire
      ensures && t == Run(s, events) && Matches(t) && t.w.pc == SendNext && t.w.host == host && t.w.reason == s.w.reason
              && (if aborted then stop && t.w.batch != [] else t.w.batch == [])
              && t.w.stale == staleDropped && t.w.failed == transportFailed
      ensures events == BatchEvents(0, |commands|, old(stop), polls, sends)
      ensures t.sh.pending == s.sh.pending
      ensures |old(wire)| <= |wire| && AllAccepted(wire, |old(wire)|) == !transportFailed
    {
      events, aborted, staleDropped, transportFailed := [], false, false, false;
      t := s;
      var i := 0;
      while i < |commands|
        invariant 0 <= i <= |commands|
        invariant t == Run(s, events) && Matches(t) && t.w.pc == SendNext && t.w.batch == commands[i..]
        invariant t.w.now == now && t.w.host == host && t.w.reason == s.w.reason
        invariant t.w.stale == staleDropped && t.w.failed == transportFailed
        invariant |old(wire)| <= |wire| && AllAccepted(wire, |old(wire)|) == !transportFailed
        invariant events + BatchEvents(i, |commands|, stop, polls, sends)
               == BatchEvents(0, |commands|, old(stop), polls, sends)
      {
        if polls(i) {
          stop := true;
          t := StopArrives(s, t, events);
          events := events + [RequestStop];
        }
        if stop {
          aborted := true;
          return;
        }
        var sent := sends(i);
        staleDropped, transportFailed, t :=
          SendOne(commands[i], now, sent, staleDropped, transportFailed, s, t, events, |old(wire)|);
        BatchGoesOn(events, i, |commands|, polls, sends);
        events := events + [Loop(sent, 0)];
        i := i + 1;
      }
    }

    /** The protocol state agrees with the fields it shares with this object. */
    ghost predicate Matches(s: State)
      reads this, wake
    {
      && s.maxAge == maxAge && s.sh == Shared(setting, wake.requested, stop, locked, pending)
      && s.l.tried == wire && s.l.events == dropEvents
    }

    /** Sends the queued commands; every loss is reported by one event for the whole batch. */
    method SendPendingCommands(now: int, polls: nat -> bool, sends: nat -> bool)
      returns (ok: bool, ghost events: seq<Event>)
      requires Valid() && !locked && w.pc == SwapQueue
      modifies this
      ensures Valid() && View() == Run(old(View()), events)
      ensures events == SendEvents(now, |old(pending)|, old(stop), polls, sends)
      ensures pending == [] && w.batch == []
      ensures if ok then AllAccepted(wire, |old(wire)|) else w.pc == CloseSocket
      ensures ok ==> w.pc == if old(w.reason) == Triggered then CloseSocket
                             else if old(w.reason) == CommandPending then InnerTop else Probe
    {
      ghost var s0 := View();
      var commands := pending;
      pending := [];
      ghost var s := BatchStarts(s0, now);
      var aborted, staleDropped, transportFailed;
      ghost var m;
      aborted, staleDropped, transportFailed, events, m := SendBatch(commands, now, polls, sends, s);
      ok := !aborted && !transportFailed;
      events := ReportBatch(aborted || staleDropped || transportFailed, s0, m, Loop(true, now), events);
    }

    /** One event for the whole batch, and the loop's own record of where it now stands. */
    method ReportBatch(due: bool, ghost s0: State, ghost m: State, ghost first: Event, ghost middle: seq<Event>)
      returns (ghost events: seq<Event>)
      requires Matches(m) && m.w.host == host && m.w.pc == SendNext && (m.w.batch != [] ==> m.sh.stop)
      requires m == Run(Apply(s0, first), middle)
      requires due == (m.w.batch != [] || m.w.stale || m.w.failed)
      modifies this`dropEvents, this`w, this`l
      ensures Valid() && View() == Run(s0, events)
      ensures events == [first] + middle + [Loop(true, 0), Loop(true, 0)]
      ensures m.w.batch != [] || m.w.failed ==> w.pc == CloseSocket
      ensures w.batch == [] && pending == m.sh.pending && (m.w.batch == [] ==> w.pc == AfterBatch(m.w))
    {
      if due {
        dropEvents := dropEvents + 1;
      }
      ghost var s;
      s, events := WholeRun(s0, m, first, middle);
      w, l := s.w, s.l;
    }
  }

  /** What happens over a batch of n commands from the i-th on: a stop ends it, else each command is one
      action of the loop. */
  function BatchEvents(i: nat, n: nat, stopped: bool, polls: nat -> bool, sends: nat -> bool): seq<Event>
    requires i <= n
    decreases n - i
  {
    if i == n then []
    else if polls(i) then [RequestStop]
    else if stopped then []
    else [Loop(sends(i), 0)] + BatchEvents(i + 1, n, false, polls, sends)
  }

  /** A batch goes on to the first check at which a stop is requested, or to its end; up to there every command is
      one action, with SendText's own outcome. */
  lemma {:induction false} BatchGoesOnUntilStopped(i: nat, n: nat, stopped: bool, polls: nat -> bool, sends: nat -> bool)
    returns (k: nat)
    requires i <= n
    ensures i <= k <= n && (forall j: nat :: i <= j < k ==> !polls(j))
    ensures k < n ==> polls(k) || (k == i && stopped)
    ensures k == n ==> i == n || !stopped
    ensures var events := BatchEvents(i, n, stopped, polls, sends);
            && |events| == k - i + (if k < n && polls(k) then 1 else 0)
            && (forall j :: 0 <= j < k - i ==> events[j] == Loop(sends(i + j), 0))
            && (k < n && polls(k) ==> events[k - i] == RequestStop)
    decreases n - i
  {
    k := i;
    if i < n && !polls(i) && !stopped {
      k := BatchGoesOnUntilStopped(i + 1, n, false, polls, sends);
    }
  }

  /** A whole SendPendingCommands: the queue is taken, the batch gone through, its losses reported. */
  function SendEvents(now: int, n: nat, stopped: bool, polls: nat -> bool, sends: nat -> bool): seq<Event> {
    [Loop(true, now)] + BatchEvents(0, n, stopped, polls, sends) + [Loop(true, 0), Loop(true, 0)]
  }

  lemma BatchGoesOn(events: seq<Event>, i: nat, n: nat, polls: nat -> bool, sends: nat -> bool)
    requires i < n && !polls(i)
    ensures events + BatchEvents(i, n, false, polls, sends)
         == events + [Loop(sends(i), 0)] + BatchEvents(i + 1, n, false, polls, sends)
  {
  }

  lemma BatchStarts(s0: State, now: int) returns (s: State)
    requires s0.w.pc == SwapQueue
    ensures s == Apply(s0, Loop(true, now))
    ensures s.maxAge == s0.maxAge && s.sh == s0.sh.(pending := []) && s.l == s0.l
    ensures s.w == s0.w.(batch := s0.sh.pending, now := now, stale := false, failed := false, pc := SendNext)
  {
    s := Apply(s0, Loop(true, now));
  }

  /** The last two actions of a SendPendingCommands, after its loop has ended or was cut short. */
  lemma LastActions(m: State) returns (t: State)
    requires m.w.pc == SendNext && (m.w.batch != [] ==> m.sh.stop)
    ensures t == Run(m, [Loop(true, 0), Loop(true, 0)]) && t.w.batch == []
    ensures var aborted := m.w.batch != [];
            && t.maxAge == m.maxAge && t.sh == m.sh && t.w.host == m.w.host
            && t.w.pc == (if aborted then CloseSocket else AfterBatch(m.w))
            && t.l.tried == m.l.tried
            && t.l.events == m.l.events + (if aborted || m.w.stale || m.w.failed then 1 else 0)
  {
    RunTwo(m, Loop(true, 0), Loop(true, 0));
    t := Apply(Apply(m, Loop(true, 0)), Loop(true, 0));
  }

  /** The events of a SendPendingCommands: its first action, those of its loop, and the last ones. */
  lemma JoinRuns(s0: State, first: Event, middle: seq<Event>, last: seq<Event>)
    ensures Run(s0, [first] + middle + last) == Run(Run(Apply(s0, first), middle), last)
  {
    RunConcat(s0, [first] + middle, last);
    RunConcat(s0, [first], middle);
    assert Run(s0, [first]) == Run(Apply(s0, first), []);
  }

  lemma WholeRun(s0: State, m: State, first: Event, middle: seq<Event>) returns (t: State, events: seq<Event>)
    requires m == Run(Apply(s0, first), middle)
    requires m.w.pc == SendNext && (m.w.batch != [] ==> m.sh.stop)
    ensures t == Run(s0, events) && t.w.batch == [] && events == [first] + middle + [Loop(true, 0), Loop(true, 0)]
    ensures var aborted := m.w.batch != [];
            && t.maxAge == m.maxAge && t.sh == m.sh && t.w.host == m.w.host
            && t.w.pc == (if aborted then CloseSocket else AfterBatch(m.w))
            && t.l.tried == m.l.tried
            && t.l.events == m.l.events + (if aborted || m.w.stale || m.w.failed then 1 else 0)
  {
    var last := [Loop(true, 0), Loop(true, 0)];
    JoinRuns(s0, first, middle, last);
    t := LastActions(m);
    events := [first] + middle + last;
  }

  /** Every attempt from `from` on was accepted. */
  ghost predicate AllAccepted(wire: seq<Attempt>, from: nat) {
    forall k :: from <= k < |wire| ==> wire[k].ok
  }

  lemma AcceptedAppend(wire: seq<Attempt>, from: nat, a: Attempt)
    requires from <= |wire|
    ensures AllAccepted(wire + [a], from) <==> AllAccepted(wire, from) && a.ok
  {
    var longer := wire + [a];
    assert longer[|wire|] == a;
    assert forall k :: from <= k < |wire| ==> longer[k] == wire[k];
  }

  // One more piece of a run, with what it does to the parts SendPendingCommands keeps track of.

  lemma StopArrives(s0: State, s: State, events: seq<Event>) returns (t: State)
    requires s == Run(s0, events)
    ensures t == Run(s0, events + [RequestStop])
    ensures t.maxAge == s.maxAge && t.sh == s.sh.(stop := true) && t.w == s.w && t.l == s.l
  {
    RunSnoc(s0, events, RequestStop);
    t := Apply(s, RequestStop);
  }

  lemma CommandDone(s0: State, s: State, events: seq<Event>, ok: bool) returns (t: State)
    requires s == Run(s0, events) && s.w.pc == SendNext && s.w.batch != [] && !s.sh.stop
    ensures t == Run(s0, events + [Loop(ok, 0)])
    ensures t.maxAge == s.maxAge && t.sh == s.sh
    ensures t.w == s.w.(batch := s.w.batch[1..], stale := t.w.stale, failed := t.w.failed)
    ensures var c := s.w.batch[0];
            var isStale := c.kind != Release && s.w.now - c.enqueuedAt > s.maxAge;
            var attempted := !isStale && (c.kind == Release || !s.w.failed);
            && t.w.stale == (s.w.stale || isStale)
            && t.w.failed == (s.w.failed || (attempted && !ok))
            && t.l.tried == (if attempted then s.l.tried + [Attempt(c, s.w.host, ok)] else s.l.tried)
            && t.l.events == s.l.events
  {
    RunSnoc(s0, events, Loop(ok, 0));
    t := SendStep(s, ok);
  }

  lemma RunTwo(s: State, a: Event, b: Event)
    ensures Run(s, [a, b]) == Apply(Apply(s, a), b)
  {
    RunSnoc(s, [a], b);
    assert [a] + [b] == [a, b];
    RunSnoc(s, [], a);
    assert [] + [a] == [a];
  }
}
