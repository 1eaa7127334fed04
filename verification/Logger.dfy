/** The logger's worker, interleaved with the threads that log and that wait for a flush
    (src/core/logger.cpp). Store writes are taken to succeed. */
module Loggers {
  import opened Wrappers
  import opened Queues
  import opened LogStore

  /** A queued record, already formatted as its stored line, or a flush signal. */
  datatype Item = Record(line: string) | Flush(id: nat)

  datatype Pc = Waiting | Draining | Writing | Signalling | Exited

  /** `taken`, `written` and `fired` are history: every item taken from the queue, every record written
      and every signal fired, in order; `safe` is how much had been taken at the last write. */
  datatype State = State(
    cap: nat, queue: seq<Item>, stop: bool,
    pc: Pc, batch: seq<string>, signals: seq<nat>, blobs: Blobs,
    taken: seq<Item>, written: seq<string>, fired: seq<nat>, safe: nat)

  datatype Event = Push(item: Item) | RequestStop | Work

  function Init(cap: nat): State {
    State(cap, [], false, Waiting, [], [], Blobs("", ""), [], [], [], 0)
  }

  function Records(items: seq<Item>): seq<string> {
    if items == [] then []
    else
      var last := items[|items| - 1];
      Records(items[..|items| - 1]) + (if last.Record? then [last.line] else [])
  }

  function Flushes(items: seq<Item>): seq<nat> {
    if items == [] then []
    else
      var last := items[|items| - 1];
      Flushes(items[..|items| - 1]) + (if last.Flush? then [last.id] else [])
  }

  /** Everything ever pushed, in push order. */
  function Pushed(s: State): seq<Item> {
    s.taken + s.queue
  }

  function Consume(s: State): State
    requires s.queue != []
  {
    var t := s.(queue := s.queue[1..], taken := s.taken + [s.queue[0]], pc := Draining);
    match s.queue[0]
    case Record(line) => t.(batch := s.batch + [line])
    case Flush(id) => t.(signals := s.signals + [id])
  }

  function WorkStep(s: State): State {
    match s.pc
    case Waiting => if s.queue != [] then Consume(s) else if s.stop then s.(pc := Exited) else s
    case Draining => if s.queue != [] then Consume(s) else s.(pc := Writing)
    case Writing =>
      s.(blobs := if s.batch == [] then s.blobs else WriteStep(s.blobs, Unlines(s.batch), s.cap),
         written := s.written + s.batch, batch := [], safe := |s.taken|, pc := Signalling)
    case Signalling =>
      if s.signals == [] then s.(pc := Waiting)
      else s.(fired := s.fired + [s.signals[0]], signals := s.signals[1..])
    case Exited => s
  }

  function Apply(s: State, e: Event): State {
    match e
    case Push(item) => s.(queue := s.queue + [item])
    case RequestStop => s.(stop := true)
    case Work => WorkStep(s)
  }

  function Run(s: State, events: seq<Event>): State
    decreases |events|
  {
    if events == [] then s else Run(Apply(s, events[0]), events[1..])
  }

  // ---- bookkeeping lemmas ----

  lemma Snoc(items: seq<Item>, item: Item)
    ensures Records(items + [item]) == Records(items) + (if item.Record? then [item.line] else [])
    ensures Flushes(items + [item]) == Flushes(items) + (if item.Flush? then [item.id] else [])
  {
    assert (items + [item])[..|items|] == items;
  }

  lemma {:induction false} Prefixes(items: seq<Item>, k: nat)
    requires k <= |items|
    ensures Records(items[..k]) <= Records(items) && Flushes(items[..k]) <= Flushes(items)
    decreases |items|
  {
    if k == |items| {
      assert items[..k] == items;
    } else {
      var n := |items| - 1;
      assert items[..n][..k] == items[..k];
      Prefixes(items[..n], k);
    }
  }

  ghost predicate Inv(s: State) {
    && Records(s.taken) == s.written + s.batch
    && Flushes(s.taken) == s.fired + s.signals
    && (s.pc != Draining && s.pc != Writing ==> s.batch == [])
    && (s.pc == Waiting || s.pc == Exited ==> s.signals == [])
    && s.safe <= |s.taken|
    && Records(s.taken[..s.safe]) == s.written
    && |s.fired| <= |Flushes(s.taken[..s.safe])|
    && (s.pc == Signalling ==> s.safe == |s.taken|)
  }

  lemma InvConsume(s: State)
    requires Inv(s) && s.queue != [] && (s.pc == Waiting || s.pc == Draining)
    ensures Inv(Consume(s))
  {
    var item := s.queue[0];
    Snoc(s.taken, item);
    assert (s.taken + [item])[..s.safe] == s.taken[..s.safe];
    if item.Record? {
      assert s.written + (s.batch + [item.line]) == s.written + s.batch + [item.line];
    } else {
      assert s.fired + (s.signals + [item.id]) == s.fired + s.signals + [item.id];
    }
  }

  lemma InvWork(s: State)
    requires Inv(s)
    ensures Inv(WorkStep(s))
  {
    if (s.pc == Waiting || s.pc == Draining) && s.queue != [] {
      InvConsume(s);
    } else if s.pc == Writing {
      assert s.taken[..|s.taken|] == s.taken;
    } else if s.pc == Signalling && s.signals != [] {
      assert s.fired + s.signals == s.fired + [s.signals[0]] + s.signals[1..];
      assert s.taken[..s.safe] == s.taken;
    }
  }

  lemma StepInv(s: State, e: Event)
    requires Inv(s)
    ensures Inv(Apply(s, e))
  {
    if e == Work {
      InvWork(s);
    }
  }

  lemma {:induction false} RunInv(s: State, events: seq<Event>)
    requires Inv(s)
    ensures Inv(Run(s, events))
    decreases |events|
  {
    if events != [] {
      StepInv(s, events[0]);
      RunInv(Apply(s, events[0]), events[1..]);
    }
  }

  lemma {:induction false} RunPushes(s: State, events: seq<Event>)
    ensures Pushed(Run(s, events)) == Pushed(s) + PushesOf(events)
    decreases |events|
  {
    if events == [] {
      assert Pushed(s) + PushesOf(events) == Pushed(s);
    } else {
      var e := events[0];
      PushedStep(s, e);
      RunPushes(Apply(s, e), events[1..]);
      PushesHead(events);
      Associative(Pushed(s), PushesOf([e]), PushesOf(events[1..]));
    }
  }

  lemma PushesHead(events: seq<Event>)
    requires events != []
    ensures PushesOf(events) == PushesOf([events[0]]) + PushesOf(events[1..])
  {
    assert [events[0]][1..] == [];
  }

  lemma Associative(a: seq<Item>, b: seq<Item>, c: seq<Item>)
    ensures a + b + c == a + (b + c)
  {
  }

  /** What the other threads push along a run. */
  function PushesOf(events: seq<Event>): seq<Item> {
    if events == [] then [] else (if events[0].Push? then [events[0].item] else []) + PushesOf(events[1..])
  }

  lemma PushedStep(s: State, e: Event)
    ensures Pushed(Apply(s, e)) == Pushed(s) + PushesOf([e])
  {
    if e.Push? {
      assert [e][1..] == [];
      Associative(s.taken, s.queue, [e.item]);
    } else {
      assert [e][1..] == [];
      assert Pushed(s) + [] == Pushed(s);
      if e == Work && (s.pc == Waiting || s.pc == Draining) && s.queue != [] {
        ConsumeKeepsPushed(s);
      }
    }
  }

  lemma ConsumeKeepsPushed(s: State)
    requires s.queue != []
    ensures Pushed(Consume(s)) == Pushed(s)
  {
    assert s.queue == [s.queue[0]] + s.queue[1..];
    Associative(s.taken, [s.queue[0]], s.queue[1..]);
  }

  /** A flush counted among the first `safe` items lies among them, with all its records. */
  lemma FlushWithin(items: seq<Item>, safe: nat, k: nat)
    requires safe <= |items| && k < |items|
    requires |Flushes(items[..k])| < |Flushes(items[..safe])|
    ensures Records(items[..k]) <= Records(items[..safe])
  {
    if safe <= k {
      assert items[..k][..safe] == items[..safe];
      Prefixes(items[..k], safe);
    } else {
      assert items[..safe][..k] == items[..k];
      Prefixes(items[..safe], k);
    }
  }

  /** In every interleaving: records are written in push order, signals fire in push order, and a signal
      has fired only if every record pushed before it has been written. */
  lemma FlushAfterItsRecords(cap: nat, events: seq<Event>, k: nat)
    requires k < |PushesOf(events)|
    ensures var s := Run(Init(cap), events);
            var pushed := PushesOf(events);
            && s.written <= Records(pushed) && s.fired <= Flushes(pushed)
            && (pushed[k].Flush? && |Flushes(pushed[..k])| < |s.fired| ==> Records(pushed[..k]) <= s.written)
  {
    RunInv(Init(cap), events);
    RunPushes(Init(cap), events);
    var s := Run(Init(cap), events);
    var pushed := PushesOf(events);
    assert pushed == s.taken + s.queue;
    assert pushed[..|s.taken|] == s.taken && pushed[..s.safe] == s.taken[..s.safe];
    Prefixes(pushed, |s.taken|);
    if |Flushes(pushed[..k])| < |s.fired| {
      FlushWithin(pushed, s.safe, k);
    }
  }

  /** A worker that has gone back to waiting on an empty queue has written every record and fired every
      signal. */
  lemma WaitingWorkerIsDone(cap: nat, events: seq<Event>)
    ensures var s := Run(Init(cap), events);
            s.pc == Waiting && s.queue == [] ==>
              s.written == Records(PushesOf(events)) && s.fired == Flushes(PushesOf(events))
  {
    RunInv(Init(cap), events);
    RunPushes(Init(cap), events);
    var s := Run(Init(cap), events);
    assert s.taken + s.queue == [] + PushesOf(events) == PushesOf(events);
    if s.queue == [] {
      assert s.taken + s.queue == s.taken;
    }
  }

  lemma {:induction false} StopsOnceAsked(s: State, events: seq<Event>)
    ensures Run(s, events).stop <==> s.stop || RequestStop in events
    decreases |events|
  {
    if events != [] {
      assert events == [events[0]] + events[1..];
      StopsOnceAsked(Apply(s, events[0]), events[1..]);
    }
  }

  /** The worker ends exactly when it is asked to stop and finds nothing queued, and then nothing pushed so far
      is unwritten or unsignalled: a stop never costs a record. */
  lemma StopLosesNothing(cap: nat, events: seq<Event>)
    ensures var s := Run(Init(cap), events);
            var t := Apply(s, Work);
            && (s.pc != Exited ==>
                  (t.pc == Exited <==> s.pc == Waiting && s.queue == [] && RequestStop in events))
            && (s.pc != Exited && t.pc == Exited ==>
                  t.written == Records(PushesOf(events)) && t.fired == Flushes(PushesOf(events)))
  {
    StopsOnceAsked(Init(cap), events);
    WaitingWorkerIsDone(cap, events);
  }

  // ---- what is on flash when a signal fires ----

  lemma {:induction false} UnlinesConcat(a: seq<string>, b: seq<string>)
    ensures Unlines(a + b) == Unlines(a) + Unlines(b)
    decreases |a|
  {
    if a == [] {
      assert a + b == b;
    } else {
      assert (a + b)[1..] == a[1..] + b;
      UnlinesConcat(a[1..], b);
      assert a[0] + "\n" + (Unlines(a[1..]) + Unlines(b)) == a[0] + "\n" + Unlines(a[1..]) + Unlines(b);
    }
  }

  lemma StoredStep(s: State, e: Event)
    requires Stored(s) && (e == Work && s.pc == Writing ==> FitsOrOneLine(Unlines(s.batch), s.cap))
    ensures Stored(Apply(s, e))
  {
    if e == Work && s.pc == Writing && s.batch != [] {
      BatchStored(s);
    } else {
      BlobsKept(s, e);
    }
  }

  lemma BatchStored(s: State)
    requires Stored(s) && s.pc == Writing && s.batch != [] && FitsOrOneLine(Unlines(s.batch), s.cap)
    ensures Stored(WorkStep(s))
  {
    RetainedStep(s.blobs, Unlines(s.written), Unlines(s.batch), s.cap);
    UnlinesConcat(s.written, s.batch);
  }

  lemma BlobsKept(s: State, e: Event)
    requires e == Work && s.pc == Writing ==> s.batch == []
    ensures var t := Apply(s, e); t.blobs == s.blobs && t.written == s.written && t.cap == s.cap
  {
    assert s.written + [] == s.written;
  }

  lemma CapKept(s: State, e: Event)
    ensures Apply(s, e).cap == s.cap
  {
  }

  lemma BatchesFitStep(s: State, events: seq<Event>)
    requires events != [] && BatchesFit(s, events)
    ensures events[0] == Work && s.pc == Writing ==> FitsOrOneLine(Unlines(s.batch), s.cap)
    ensures BatchesFit(Apply(s, events[0]), events[1..])
  {
  }

  lemma {:induction false} StoredRun(s: State, events: seq<Event>)
    requires Stored(s) && BatchesFit(s, events)
    ensures Stored(Run(s, events)) && Run(s, events).cap == s.cap
    decreases |events|
  {
    if events != [] {
      BatchesFitStep(s, events);
      StoredStep(s, events[0]);
      CapKept(s, events[0]);
      StoredRun(Apply(s, events[0]), events[1..]);
    }
  }

  /** Over any run in which every batch fits the cap or is a single line, the two blobs hold the newest part of all lines
      written, with no gap, and more than the cap once anything is gone. */
  lemma FlashHoldsTheNewest(cap: nat, events: seq<Event>)
    requires BatchesFit(Init(cap), events)
    ensures var s := Run(Init(cap), events); Retained(s.blobs, Unlines(s.written), cap)
  {
    StoredRun(Init(cap), events);
  }

  ghost predicate Stored(s: State) {
    Retained(s.blobs, Unlines(s.written), s.cap)
  }

  /** Every batch written along the run fits the cap or is a single line. */
  ghost predicate BatchesFit(s: State, events: seq<Event>)
    decreases |events|
  {
    events != [] ==>
      (events[0] == Work && s.pc == Writing ==> FitsOrOneLine(Unlines(s.batch), s.cap)) && BatchesFit(Apply(s, events[0]), events[1..])
  }

  // ---- the logger's own methods ----

  /** What the worker does to the outside, in the order it does it. */
  datatype Effect = Wrote(lines: string) | Fired(id: nat)

  function FiredAll(signals: seq<nat>): seq<Effect> {
    seq(|signals|, i requires 0 <= i < |signals| => Fired(signals[i]))
  }

  function Works(n: nat): seq<Event> {
    seq(n, _ => Work)
  }

  lemma {:induction false} OneMoreWork(s: State, n: nat)
    ensures Run(s, Works(n + 1)) == WorkStep(Run(s, Works(n)))
    decreases n
  {
    if n == 0 {
      assert Works(1)[1..] == [] && Works(0) == [];
    } else {
      assert Works(n + 1)[1..] == Works(n) && Works(n)[1..] == Works(n - 1);
      OneMoreWork(WorkStep(s), n - 1);
    }
  }

  class Logger {
    const cap: nat
    const pending: Queue<Item>
    var rotated: string
    var current: string
    var fired: seq<nat>
    // Writes and signals in the order they happened.
    ghost var effects: seq<Effect>
    // Where the worker stands between turns, and what it has taken and written.
    ghost var pc: Pc
    // The worker's stop token.
    var stop: bool
    ghost var taken: seq<Item>
    ghost var written: seq<string>
    ghost var safe: nat

    ghost function View(): State
      reads this, pending
    {
      State(cap, pending.items, stop, pc, [], [], Blobs(rotated, current), taken, written, fired, safe)
    }

    constructor (cap: nat)
      ensures View() == Init(cap) && effects == [] && fresh(pending)
    {
      this.cap := cap;
      pending := new Queue<Item>();
      rotated, current, fired := "", "", [];
      effects, pc, stop, taken, written, safe := [], Waiting, false, [], [], 0;
    }

    method Log(line: string)
      modifies pending
      ensures View() == Apply(old(View()), Push(Record(line)))
    {
      pending.Push(Record(line));
    }

    /** The first half of ReadAll: a signal goes behind every record logged so far. */
    method RequestFlush(id: nat)
      modifies pending
      ensures View() == Apply(old(View()), Push(Flush(id)))
    {
      pending.Push(Flush(id));
    }

    method WriteBatch(batch: seq<string>)
      modifies this`rotated, this`current, this`effects
      ensures Blobs(rotated, current) == WriteStep(old(Blobs(rotated, current)), Unlines(batch), cap)
      ensures effects == old(effects) + [Wrote(Unlines(batch))]
    {
      var lines := "";
      for i := 0 to |batch|
        invariant lines == Unlines(batch[..i])
        invariant rotated == old(rotated) && current == old(current) && effects == old(effects)
      {
        UnlinesConcat(batch[..i], [batch[i]]);
        assert batch[..i + 1] == batch[..i] + [batch[i]];
        assert Unlines([batch[i]]) == batch[i] + "\n" + Unlines([batch[i]][1..]);
        lines := lines + (batch[i] + "\n");
      }
      assert batch[..|batch|] == batch;
      var previous := current;
      var updated := previous + lines;
      if |updated| > cap {
        rotated := previous;
        var tail := TrimToTail(lines, cap);
        current := tail;
      } else {
        current := updated;
      }
      effects := effects + [Wrote(lines)];
    }

    method Signal(id: nat)
      modifies this`fired, this`effects
      ensures fired == old(fired) + [id] && effects == old(effects) + [Fired(id)]
    {
      fired := fired + [id];
      effects := effects + [Fired(id)];
    }

    /** Takes `first` and whatever else is queued. */
    method TakeAll(first: Item, ghost all: seq<Item>) returns (batch: seq<string>, signals: seq<nat>)
      requires all == [first] + pending.items
      modifies pending
      ensures pending.items == [] && batch == Records(all) && signals == Flushes(all)
    {
      batch, signals := [], [];
      ghost var done: seq<Item> := [];
      var next := Some(first);
      while next.Some?
        invariant all == done + (if next.Some? then [next.value] else []) + pending.items
        invariant next.None? ==> pending.items == []
        invariant batch == Records(done) && signals == Flushes(done)
        decreases |all| - |done|
      {
        var item := next.value;
        Snoc(done, item);
        if item.Record? {
          batch := batch + [item.line];
        } else {
          signals := signals + [item.id];
        }
        done := done + [item];
        next := pending.TryPop();
      }
      assert done == all;
    }

    /** Fires the signals of a turn, one action each. */
    method SignalAll(signals: seq<nat>, ghost s: State, ghost t: State, ghost n: nat) returns (ghost u: State)
      requires t == Run(s, Works(n)) && t.pc == Signalling && t.signals == signals && t.fired == fired
      modifies this`fired, this`effects
      ensures u == Run(s, Works(n + |signals| + 1))
      ensures u == t.(pc := Waiting, signals := [], fired := fired)
      ensures fired == old(fired) + signals && effects == old(effects) + FiredAll(signals)
    {
      u := t;
      var i := 0;
      while i < |signals|
        invariant 0 <= i <= |signals| && Signalled(s, t, u, n, i)
        invariant fired == old(fired) + signals[..i] && u.fired == fired
        invariant effects == old(effects) + FiredAll(signals[..i])
      {
        OneSignalled(s, t, u, n, i);
        Signal(signals[i]);
        OneMoreFired(signals, i);
        u := WorkStep(u);
        i := i + 1;
      }
      assert signals[..i] == signals;
      OneMoreWork(s, n + i);
      u := WorkStep(u);
    }

    /** One turn of the worker loop over the items already queued: all of them are taken, the records
        written as one batch, and only then the signals fired - as many actions of the worker as there are
        items and signals, and three more. A stop with nothing queued ends the worker. */
    method WorkerTurn() returns (running: bool)
      requires pc == Waiting && (pending.items != [] || stop)
      modifies this`rotated, this`current, this`fired, this`effects, this`pc, this`taken, this`written, this`safe
      modifies pending
      ensures running == (old(pending.items) != [])
      ensures var n := |old(pending.items)| + |Flushes(old(pending.items))| + 3;
              View() == Run(old(View()), Works(if running then n else 1))
      ensures running ==> pc == Waiting && pending.items == []
      ensures var records := Records(old(pending.items));
              Blobs(rotated, current) == if records == [] then old(Blobs(rotated, current))
                                         else WriteStep(old(Blobs(rotated, current)), Unlines(records), cap)
      ensures fired == old(fired) + Flushes(old(pending.items))
      ensures var records := Records(old(pending.items));
              effects == old(effects) + (if records == [] then [] else [Wrote(Unlines(records))])
                         + FiredAll(Flushes(old(pending.items)))
    {
      ghost var s := View();
      var first := pending.Pop(stop);
      if first.None? {
        OneMoreWork(s, 0);
        pc := Exited;
        assert effects == effects + [] + FiredAll([]);
        return false;
      }
      TurnFrom(first.value, s);
      return true;
    }

    /** The turn that begins with `first`, already off the queue. */
    method TurnFrom(first: Item, ghost s: State)
      requires s == View().(queue := [first] + pending.items) && pc == Waiting
      modifies this`rotated, this`current, this`fired, this`effects, this`pc, this`taken, this`written, this`safe
      modifies pending
      ensures View() == Run(s, Works(|s.queue| + |Flushes(s.queue)| + 3)) && pc == Waiting && pending.items == []
      ensures Blobs(rotated, current) == if Records(s.queue) == [] then s.blobs
                                         else WriteStep(s.blobs, Unlines(Records(s.queue)), cap)
      ensures fired == old(fired) + Flushes(s.queue)
      ensures effects == old(effects) + (if Records(s.queue) == [] then [] else [Wrote(Unlines(Records(s.queue)))])
                         + FiredAll(Flushes(s.queue))
    {
      var batch, signals;
      ghost var t;
      batch, signals := TakeAll(first, s.queue);
      t := AllTaken(s, |s.queue|);
      assert s.queue[..|s.queue|] == s.queue;
      ghost var v := FinishTurn(batch, signals, s, t);
      pc, taken, written, safe := v.pc, v.taken, v.written, v.safe;
    }

    /** The second half of a turn: the batch is written, then the signals fire. */
    method FinishTurn(batch: seq<string>, signals: seq<nat>, ghost s: State, ghost t: State) returns (ghost v: State)
      requires s.pc == Waiting && s.queue != [] && s.cap == cap
      requires s.blobs == Blobs(rotated, current) && s.fired == fired
      requires Taken(s, t, |s.queue|, batch, signals)
      modifies this`rotated, this`current, this`fired, this`effects
      ensures v == Run(s, Works(|s.queue| + |signals| + 3))
      ensures v == State(cap, [], s.stop, Waiting, [], [], Blobs(rotated, current), v.taken, v.written, fired, v.safe)
      ensures Blobs(rotated, current) == if batch == [] then s.blobs else WriteStep(s.blobs, Unlines(batch), cap)
      ensures fired == old(fired) + signals
      ensures effects == old(effects) + (if batch == [] then [] else [Wrote(Unlines(batch))]) + FiredAll(signals)
    {
      ghost var u := BatchDone(s, t, batch, signals);
      if batch != [] {
        WriteBatch(batch);
      }
      v := SignalAll(signals, s, u, |s.queue| + 2);
    }
  }

  /** t is where n actions take the worker from s: the first n queued items are in its hands. */
  ghost predicate Taken(s: State, t: State, n: nat, batch: seq<string>, signals: seq<nat>) {
    && n <= |s.queue| && t == Run(s, Works(n))
    && batch == Records(s.queue[..n]) && signals == Flushes(s.queue[..n])
    && t == s.(queue := s.queue[n..], pc := if n == 0 then s.pc else Draining,
               batch := batch, signals := signals, taken := s.taken + s.queue[..n])
  }

  lemma NoneTaken(s: State)
    requires s.batch == [] && s.signals == []
    ensures Taken(s, s, 0, [], [])
  {
    assert Works(0) == [] && s.queue[..0] == [] && s.queue[0..] == s.queue && s.taken + [] == s.taken;
  }

  lemma OneTaken(s: State, t: State, n: nat, batch: seq<string>, signals: seq<nat>) returns (u: State)
    requires s.pc == Waiting && n < |s.queue| && Taken(s, t, n, batch, signals)
    ensures var item := s.queue[n];
            Taken(s, u, n + 1, if item.Record? then batch + [item.line] else batch,
                  if item.Record? then signals else signals + [item.id])
  {
    u := WorkStep(t);
    OneMoreWork(s, n);
    Snoc(s.queue[..n], s.queue[n]);
    assert s.queue[..n + 1] == s.queue[..n] + [s.queue[n]];
    assert t.queue[0] == s.queue[n] && t.queue[1..] == s.queue[n + 1..];
    Associative(s.taken, s.queue[..n], [s.queue[n]]);
  }

  lemma {:induction false} AllTaken(s: State, n: nat) returns (t: State)
    requires s.pc == Waiting && s.batch == [] && s.signals == [] && n <= |s.queue|
    ensures Taken(s, t, n, Records(s.queue[..n]), Flushes(s.queue[..n]))
    decreases n
  {
    if n == 0 {
      t := s;
      NoneTaken(s);
    } else {
      t := AllTaken(s, n - 1);
      assert s.queue[..n] == s.queue[..n - 1] + [s.queue[n - 1]];
      Snoc(s.queue[..n - 1], s.queue[n - 1]);
      t := OneTaken(s, t, n - 1, Records(s.queue[..n - 1]), Flushes(s.queue[..n - 1]));
    }
  }

  /** u is where i more actions take the worker from t, the n-th state after s: i signals have fired. */
  ghost predicate Signalled(s: State, t: State, u: State, n: nat, i: nat) {
    && i <= |t.signals| && u == Run(s, Works(n + i))
    && u == t.(signals := t.signals[i..], fired := t.fired + t.signals[..i])
  }

  lemma OneSignalled(s: State, t: State, u: State, n: nat, i: nat)
    requires t.pc == Signalling && i < |t.signals| && Signalled(s, t, u, n, i)
    ensures Signalled(s, t, WorkStep(u), n, i + 1) && WorkStep(u).fired == u.fired + [t.signals[i]]
  {
    OneMoreWork(s, n + i);
    assert t.signals[i..][0] == t.signals[i] && t.signals[i..][1..] == t.signals[i + 1..];
    assert t.signals[..i + 1] == t.signals[..i] + [t.signals[i]];
    assert t.fired + (t.signals[..i] + [t.signals[i]]) == t.fired + t.signals[..i] + [t.signals[i]];
  }

  lemma OneMoreFired(signals: seq<nat>, i: nat)
    requires i < |signals|
    ensures signals[..i + 1] == signals[..i] + [signals[i]]
    ensures FiredAll(signals[..i + 1]) == FiredAll(signals[..i]) + [Fired(signals[i])]
  {
  }

  /** The two actions that end the taking and write the batch. */
  lemma BatchDone(s: State, t: State, batch: seq<string>, signals: seq<nat>) returns (u: State)
    requires s.queue != [] && Taken(s, t, |s.queue|, batch, signals)
    ensures u == Run(s, Works(|s.queue| + 2))
    ensures u == State(s.cap, [], s.stop, Signalling, [], signals,
                       if batch == [] then s.blobs else WriteStep(s.blobs, Unlines(batch), s.cap),
                       u.taken, u.written, s.fired, u.safe)
  {
    OneMoreWork(s, |s.queue|);
    OneMoreWork(s, |s.queue| + 1);
    u := WorkStep(WorkStep(t));
  }
}
