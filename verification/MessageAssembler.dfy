/** Bounded reassembly of WebSocket messages from frames delivered in chunks
    (src/platform/websocket_message_assembler.h; RFC 6455 section 5.4). */
module MessageAssembler {
  import opened Wrappers

  const MAX_MESSAGE_BYTES := 1024 * 1024
  const MAX_QUEUED_MESSAGES := 20

  datatype Result = Partial | Complete | Oversized

  /** `fin`: of the message's last frame; `frameComplete`: the last chunk of its frame. */
  datatype Chunk = Chunk(data: string, fin: bool, frameComplete: bool) {
    predicate Last() { fin && frameComplete }
  }

  /** How a message left the queue. */
  datatype Exit = Popped(text: string) | Evicted(text: string)

  datatype Assembly = Assembly(queue: seq<string>, inProgress: string, exits: seq<Exit>)

  datatype Op = Receive(chunk: Chunk) | Pop | Close

  function AddStep(a: Assembly, c: Chunk): (r: (Assembly, Result)) {
    if |a.inProgress| + |c.data| > MAX_MESSAGE_BYTES then (a.(inProgress := ""), Oversized)
    else if !c.Last() then (a.(inProgress := a.inProgress + c.data), Partial)
    else
      var queue := a.queue + [a.inProgress + c.data];
      var over := if |queue| > MAX_QUEUED_MESSAGES then |queue| - MAX_QUEUED_MESSAGES else 0;
      (Assembly(queue[over..], "", a.exits + Evictions(queue[..over])), Complete)
  }

  function Evictions(messages: seq<string>): seq<Exit> {
    seq(|messages|, i requires 0 <= i < |messages| => Evicted(messages[i]))
  }

  function PopStep(a: Assembly): Assembly {
    if a.queue == [] then a else a.(queue := a.queue[1..], exits := a.exits + [Popped(a.queue[0])])
  }

  class WebSocketMessageAssembler {
    var queue: seq<string>
    var inProgress: string
    ghost var exits: seq<Exit>

    ghost function View(): Assembly
      reads this
    {
      Assembly(queue, inProgress, exits)
    }

    constructor ()
      ensures View() == Assembly([], "", [])
    {
      queue, inProgress, exits := [], "", [];
    }

    method Add(data: string, fin: bool, frameComplete: bool) returns (result: Result)
      requires |queue| <= MAX_QUEUED_MESSAGES
      modifies this
      ensures (View(), result) == AddStep(old(View()), Chunk(data, fin, frameComplete))
    {
      if |inProgress| + |data| > MAX_MESSAGE_BYTES {
        inProgress := "";
        return Oversized;
      }
      inProgress := inProgress + data;
      if !fin || !frameComplete {
        return Partial;
      }
      queue := queue + [inProgress];
      inProgress := "";
      ghost var all := queue;
      while |queue| > MAX_QUEUED_MESSAGES
        invariant |queue| <= |all| <= MAX_QUEUED_MESSAGES + 1 && queue == all[|all| - |queue|..]
        invariant |queue| >= MAX_QUEUED_MESSAGES || queue == all
        invariant exits == old(exits) + Evictions(all[..|all| - |queue|])
        invariant inProgress == ""
      {
        exits := exits + [Evicted(queue[0])];
        queue := queue[1..];
      }
      return Complete;
    }

    method Pop() returns (message: Option<string>)
      modifies this
      ensures View() == PopStep(old(View()))
      ensures message == if old(queue) == [] then None else Some(old(queue)[0])
    {
      if queue == [] {
        return None;
      }
      message := Some(queue[0]);
      exits := exits + [Popped(queue[0])];
      queue := queue[1..];
    }
  }

  /** The assembler as its owner drives it: once a message is oversized the link counts as closed and
      later chunks are ignored (src/platform/firmware/websocket_client.cpp). */
  datatype Link = Link(a: Assembly, closed: bool, received: seq<Chunk>)

  const FRESH := Link(Assembly([], "", []), false, [])

  function Step(l: Link, op: Op): Link {
    match op
    case Receive(c) =>
      if l.closed then l
      else
        var (a, result) := AddStep(l.a, c);
        if result == Oversized then l.(a := a, closed := true) else Link(a, false, l.received + [c])
    case Pop => l.(a := PopStep(l.a))
    case Close => l.(closed := true)
  }

  function Run(l: Link, ops: seq<Op>): Link
    decreases |ops|
  {
    if ops == [] then l else Run(Step(l, ops[0]), ops[1..])
  }

  // ---- what a stream of chunks says ----

  /** The messages a chunk stream completes, and the text of the one it leaves unfinished. */
  function Read(chunks: seq<Chunk>): (seq<string>, string) {
    if chunks == [] then ([], "")
    else
      var n := |chunks| - 1;
      var (messages, rest) := Read(chunks[..n]);
      if chunks[n].Last() then (messages + [rest + chunks[n].data], "") else (messages, rest + chunks[n].data)
  }

  function Texts(exits: seq<Exit>): seq<string> {
    seq(|exits|, i requires 0 <= i < |exits| => exits[i].text)
  }

  ghost predicate Inv(l: Link) {
    && |l.a.queue| <= MAX_QUEUED_MESSAGES
    && |l.a.inProgress| <= MAX_MESSAGE_BYTES
    && Texts(l.a.exits) + l.a.queue == Read(l.received).0
    && (!l.closed ==> l.a.inProgress == Read(l.received).1)
  }

  lemma StepInv(l: Link, op: Op)
    requires Inv(l)
    ensures Inv(Step(l, op))
  {
    match op
    case Receive(c) =>
      if !l.closed && |l.a.inProgress| + |c.data| <= MAX_MESSAGE_BYTES {
        assert (l.received + [c])[..|l.received|] == l.received;
        if c.Last() {
          var queue := l.a.queue + [l.a.inProgress + c.data];
          var t := Step(l, op);
          var over := |queue| - |t.a.queue|;
          assert Texts(t.a.exits) == Texts(l.a.exits) + queue[..over];
          assert Texts(t.a.exits) + t.a.queue == Texts(l.a.exits) + l.a.queue + [l.a.inProgress + c.data];
        }
      }
    case Pop =>
      if l.a.queue != [] {
        assert Texts(PopStep(l.a).exits) == Texts(l.a.exits) + [l.a.queue[0]];
      }
    case Close =>
  }

  lemma {:induction false} RunInv(l: Link, ops: seq<Op>)
    requires Inv(l)
    ensures Inv(Run(l, ops))
    decreases |ops|
  {
    if ops != [] {
      StepInv(l, ops[0]);
      RunInv(Step(l, ops[0]), ops[1..]);
    }
  }

  /** For any peer, any chunking and pops anywhere: what has left the queue (popped, or evicted oldest
      first) followed by what is still queued is exactly what the accepted chunks say, in order;
      and both bounds always hold. */
  lemma ReassemblyIsExact(ops: seq<Op>)
    ensures var l := Run(FRESH, ops);
            && Texts(l.a.exits) + l.a.queue == Read(l.received).0
            && (!l.closed ==> l.a.inProgress == Read(l.received).1)
            && |l.a.queue| <= MAX_QUEUED_MESSAGES && |l.a.inProgress| <= MAX_MESSAGE_BYTES
  {
    RunInv(FRESH, ops);
  }

  // ---- fragmentation and its inverse ----

  /** One message as sent: frames, each delivered as chunks. */
  type Fragments = seq<seq<string>>

  ghost predicate WellFormed(f: Fragments) {
    |f| > 0 && forall i :: 0 <= i < |f| ==> |f[i]| > 0
  }

  function Join(pieces: seq<string>): string {
    if pieces == [] then "" else pieces[0] + Join(pieces[1..])
  }

  function Message(f: Fragments): string {
    if f == [] then "" else Join(f[0]) + Message(f[1..])
  }

  function FrameChunks(pieces: seq<string>, fin: bool): seq<Chunk> {
    seq(|pieces|, i requires 0 <= i < |pieces| => Chunk(pieces[i], fin, i == |pieces| - 1))
  }

  function Chunks(f: Fragments): seq<Chunk> {
    if f == [] then [] else FrameChunks(f[0], |f| == 1) + Chunks(f[1..])
  }

  function Stream(messages: seq<Fragments>): seq<Chunk> {
    if messages == [] then [] else Chunks(messages[0]) + Stream(messages[1..])
  }

  function Messages(messages: seq<Fragments>): seq<string> {
    seq(|messages|, i requires 0 <= i < |messages| => Message(messages[i]))
  }

  /** Reading `more` after `chunks`. */
  function ReadOn(from: (seq<string>, string), more: seq<Chunk>): (seq<string>, string)
    decreases |more|
  {
    if more == [] then from
    else
      var rest := from.1 + more[0].data;
      ReadOn(if more[0].Last() then (from.0 + [rest], "") else (from.0, rest), more[1..])
  }

  lemma {:induction false} ReadConcat(a: seq<Chunk>, b: seq<Chunk>)
    ensures Read(a + b) == ReadOn(Read(a), b)
    decreases |b|
  {
    if b == [] {
      assert a + b == a;
    } else {
      assert a + b == (a + [b[0]]) + b[1..];
      assert (a + [b[0]])[..|a|] == a;
      ReadConcat(a + [b[0]], b[1..]);
    }
  }

  lemma {:induction false} ReadOnConcat(from: (seq<string>, string), a: seq<Chunk>, b: seq<Chunk>)
    ensures ReadOn(from, a + b) == ReadOn(ReadOn(from, a), b)
    decreases |a|
  {
    if a == [] {
      assert a + b == b;
    } else {
      assert (a + b)[1..] == a[1..] + b;
      var rest := from.1 + a[0].data;
      ReadOnConcat(if a[0].Last() then (from.0 + [rest], "") else (from.0, rest), a[1..], b);
    }
  }

  lemma {:induction false} ReadFrame(from: (seq<string>, string), pieces: seq<string>, fin: bool)
    requires pieces != []
    ensures ReadOn(from, FrameChunks(pieces, fin)) ==
            if fin then (from.0 + [from.1 + Join(pieces)], "") else (from.0, from.1 + Join(pieces))
    decreases |pieces|
  {
    var chunks := FrameChunks(pieces, fin);
    assert chunks[0].data == pieces[0];
    if |pieces| == 1 {
      assert chunks[1..] == [];
      assert pieces[1..] == [] && Join(pieces) == pieces[0];
    } else {
      assert chunks[1..] == FrameChunks(pieces[1..], fin);
      ReadFrame((from.0, from.1 + pieces[0]), pieces[1..], fin);
      assert from.1 + pieces[0] + Join(pieces[1..]) == from.1 + Join(pieces);
    }
  }

  lemma {:induction false} ReadMessage(from: (seq<string>, string), f: Fragments)
    requires WellFormed(f)
    ensures ReadOn(from, Chunks(f)) == (from.0 + [from.1 + Message(f)], "")
    decreases |f|
  {
    ReadFrame(from, f[0], |f| == 1);
    ReadOnConcat(from, FrameChunks(f[0], |f| == 1), Chunks(f[1..]));
    if |f| == 1 {
      assert f[1..] == [] && Message(f) == Join(f[0]);
    } else {
      ReadMessage((from.0, from.1 + Join(f[0])), f[1..]);
      assert from.1 + Join(f[0]) + Message(f[1..]) == from.1 + Message(f);
    }
  }

  lemma {:induction false} ReadStream(from: seq<string>, messages: seq<Fragments>)
    requires forall i :: 0 <= i < |messages| ==> WellFormed(messages[i])
    ensures ReadOn((from, ""), Stream(messages)) == (from + Messages(messages), "")
    decreases |messages|
  {
    if messages == [] {
      assert from + Messages(messages) == from;
    } else {
      ReadMessage((from, ""), messages[0]);
      assert "" + Message(messages[0]) == Message(messages[0]);
      ReadOnConcat((from, ""), Chunks(messages[0]), Stream(messages[1..]));
      ReadStream(from + [Message(messages[0])], messages[1..]);
      assert Messages(messages) == [Message(messages[0])] + Messages(messages[1..]);
      assert from + [Message(messages[0])] + Messages(messages[1..]) == from + Messages(messages);
    }
  }

  /** Reading undoes any splitting of any messages into frames and of frames into chunks. */
  lemma ReadInvertsFragmentation(messages: seq<Fragments>)
    requires forall i :: 0 <= i < |messages| ==> WellFormed(messages[i])
    ensures Read(Stream(messages)) == (Messages(messages), "")
  {
    ReadConcat([], Stream(messages));
    assert [] + Stream(messages) == Stream(messages);
    ReadStream([], messages);
    assert [] + Messages(messages) == Messages(messages);
  }

  // ---- messages within the bound always arrive ----

  function ChunksOf(ops: seq<Op>): seq<Chunk> {
    if ops == [] then []
    else (if ops[0].Receive? then [ops[0].chunk] else []) + ChunksOf(ops[1..])
  }

  ghost predicate NeverClosed(ops: seq<Op>) {
    forall i :: 0 <= i < |ops| ==> !ops[i].Close?
  }

  lemma {:induction false} ReadOnExtends(from: (seq<string>, string), more: seq<Chunk>)
    ensures from.0 <= ReadOn(from, more).0
    decreases |more|
  {
    if more != [] {
      var rest := from.1 + more[0].data;
      ReadOnExtends(if more[0].Last() then (from.0 + [rest], "") else (from.0, rest), more[1..]);
    }
  }

  ghost predicate AtMost(read: (seq<string>, string), bound: nat) {
    |read.1| <= bound && forall m :: m in read.0 ==> |m| <= bound
  }

  /** An unfinished message is never longer than the message it becomes. */
  lemma {:induction false} UnfinishedAtMost(from: (seq<string>, string), more: seq<Chunk>, bound: nat)
    requires AtMost(ReadOn(from, more), bound)
    ensures |from.1| <= bound && (more != [] ==> |from.1| + |more[0].data| <= bound)
    decreases |more|
  {
    if more != [] {
      var rest := from.1 + more[0].data;
      if more[0].Last() {
        ReadOnExtends((from.0 + [rest], ""), more[1..]);
        assert (from.0 + [rest])[|from.0|] == rest;
        assert ReadOn(from, more).0[|from.0|] == rest;
      } else {
        UnfinishedAtMost((from.0, rest), more[1..], bound);
      }
    }
  }

  lemma NextFits(l: Link, c: Chunk, stream: seq<Chunk>)
    requires Inv(l) && !l.closed && l.received + [c] <= stream && AtMost(Read(stream), MAX_MESSAGE_BYTES)
    ensures |l.a.inProgress| + |c.data| <= MAX_MESSAGE_BYTES
  {
    var n := |l.received|;
    assert stream == l.received + stream[n..];
    assert stream[n] == (l.received + [c])[n];
    ReadConcat(l.received, stream[n..]);
    UnfinishedAtMost(Read(l.received), stream[n..], MAX_MESSAGE_BYTES);
  }

  lemma ReceiveFits(l: Link, c: Chunk, stream: seq<Chunk>)
    requires Inv(l) && !l.closed && l.received + [c] <= stream && AtMost(Read(stream), MAX_MESSAGE_BYTES)
    ensures var t := Step(l, Receive(c)); !t.closed && t.received == l.received + [c]
  {
    NextFits(l, c, stream);
  }

  lemma Regroup(a: seq<Chunk>, c: Chunk, b: seq<Chunk>)
    ensures a + ([c] + b) == a + [c] + b
    ensures a + [c] <= a + ([c] + b)
  {
  }

  lemma {:induction false} NothingOversized(l: Link, ops: seq<Op>, stream: seq<Chunk>)
    requires Inv(l) && !l.closed && NeverClosed(ops)
    requires l.received + ChunksOf(ops) <= stream && AtMost(Read(stream), MAX_MESSAGE_BYTES)
    ensures !Run(l, ops).closed && Run(l, ops).received == l.received + ChunksOf(ops)
    decreases |ops|
  {
    if ops == [] {
      assert l.received + [] == l.received;
    } else {
      StepInv(l, ops[0]);
      if ops[0].Receive? {
        var c := ops[0].chunk;
        Regroup(l.received, c, ChunksOf(ops[1..]));
        ReceiveFits(l, c, stream);
        NothingOversized(Step(l, ops[0]), ops[1..], stream);
      } else {
        assert ChunksOf(ops) == [] + ChunksOf(ops[1..]) == ChunksOf(ops[1..]);
        NothingOversized(Step(l, ops[0]), ops[1..], stream);
      }
    }
  }

  /** For any messages within the bound, any fragmentation and pops anywhere, once the whole stream has
      been delivered the popped and evicted messages followed by the queued ones are the originals. */
  lemma BoundedMessagesArrive(messages: seq<Fragments>, ops: seq<Op>)
    requires forall i :: 0 <= i < |messages| ==> WellFormed(messages[i]) && |Message(messages[i])| <= MAX_MESSAGE_BYTES
    requires ChunksOf(ops) == Stream(messages) && NeverClosed(ops)
    ensures var a := Run(FRESH, ops).a;
            && Texts(a.exits) + a.queue == Messages(messages)
            && |a.queue| <= MAX_QUEUED_MESSAGES && a.inProgress == "" && !Run(FRESH, ops).closed
  {
    AllReceived(ops, Stream(messages), messages);
    ReassemblyIsExact(ops);
  }

  lemma AllReceived(ops: seq<Op>, stream: seq<Chunk>, messages: seq<Fragments>)
    requires stream == Stream(messages) && ChunksOf(ops) == stream && NeverClosed(ops)
    requires forall i :: 0 <= i < |messages| ==> WellFormed(messages[i]) && |Message(messages[i])| <= MAX_MESSAGE_BYTES
    ensures !Run(FRESH, ops).closed && Run(FRESH, ops).received == stream
    ensures Read(stream) == (Messages(messages), "")
  {
    ReadInvertsFragmentation(messages);
    NothingOversized(FRESH, ops, stream);
  }

  /** No accepted message is longer than the bound. */
  ghost predicate Fitting(l: Link) {
    forall k :: 0 <= k < |Read(l.received).0| ==> |Read(l.received).0[k]| <= MAX_MESSAGE_BYTES
  }

  lemma OpenHasAll(l: Link, op: Op)
    requires !Step(l, op).closed
    ensures !l.closed && Step(l, op).received == l.received + ChunksOf([op])
  {
    assert ChunksOf([op]) == (if op.Receive? then [op.chunk] else []) + ChunksOf([op][1..]);
  }

  /** A link still open has accepted every chunk. */
  lemma {:induction false} OpenRun(l: Link, ops: seq<Op>)
    requires Inv(l) && Fitting(l) && !Run(l, ops).closed
    ensures !l.closed && Fitting(Run(l, ops)) && Run(l, ops).received == l.received + ChunksOf(ops)
    decreases |ops|
  {
    if ops == [] {
      assert l.received + [] == l.received;
    } else {
      StepInv(l, ops[0]);
      OpenRun(Step(l, ops[0]), ops[1..]);
      OpenHasAll(l, ops[0]);
      assert l.received + ChunksOf([ops[0]]) + ChunksOf(ops[1..])
          == l.received + (ChunksOf([ops[0]]) + ChunksOf(ops[1..]));
    }
  }

  lemma OversizedCloses(messages: seq<Fragments>, ops: seq<Op>, i: nat)
    requires forall k :: 0 <= k < |messages| ==> WellFormed(messages[k])
    requires ChunksOf(ops) == Stream(messages) && NeverClosed(ops) && i < |messages|
    ensures |Message(messages[i])| > MAX_MESSAGE_BYTES ==> Run(FRESH, ops).closed
  {
    if !Run(FRESH, ops).closed {
      OpenRun(FRESH, ops);
      assert [] + ChunksOf(ops) == Stream(messages);
      ReadInvertsFragmentation(messages);
      assert Messages(messages)[i] == Message(messages[i]);
    }
  }

  /** However messages are fragmented, delivering them closes the link exactly when one of them is longer
      than the bound. */
  lemma ClosedIffOversized(messages: seq<Fragments>, ops: seq<Op>)
    requires forall i :: 0 <= i < |messages| ==> WellFormed(messages[i])
    requires ChunksOf(ops) == Stream(messages) && NeverClosed(ops)
    ensures Run(FRESH, ops).closed <==> exists i :: 0 <= i < |messages| && |Message(messages[i])| > MAX_MESSAGE_BYTES
  {
    if forall i :: 0 <= i < |messages| ==> |Message(messages[i])| <= MAX_MESSAGE_BYTES {
      BoundedMessagesArrive(messages, ops);
    } else {
      var i :| 0 <= i < |messages| && |Message(messages[i])| > MAX_MESSAGE_BYTES;
      OversizedCloses(messages, ops, i);
    }
  }

  /** A pop hands out the oldest message; one is evicted, the oldest again, only by a message completed while
      twenty are queued; nothing else leaves the queue. */
  lemma EvictedOnlyWhenFull(l: Link, op: Op)
    requires Inv(l)
    ensures var t := Step(l, op);
            var full := op.Receive? && !l.closed && op.chunk.fin && op.chunk.frameComplete
                        && |l.a.inProgress| + |op.chunk.data| <= MAX_MESSAGE_BYTES && |l.a.queue| == 20;
            t.a.exits == l.a.exits + (if op.Pop? && l.a.queue != [] then [Popped(l.a.queue[0])]
                                      else if full then [Evicted(l.a.queue[0])] else [])
  {
  }

  /** Without its owner's close, the assembler would deliver what follows an oversized piece as a message
      of its own. */
  lemma OversizedTailNeedsClose(tail: string)
    requires |tail| <= MAX_MESSAGE_BYTES
    ensures var big := seq(MAX_MESSAGE_BYTES, _ => 'a');
            var (a1, r1) := AddStep(FRESH.a, Chunk(big, false, true));
            var (a2, r2) := AddStep(a1, Chunk("b", false, true));
            var (a3, r3) := AddStep(a2, Chunk(tail, true, true));
            r1 == Partial && r2 == Oversized && r3 == Complete && a3.queue == [tail]
  {
    var big: string := seq(MAX_MESSAGE_BYTES, _ => 'a');
    var (a1, r1) := AddStep(FRESH.a, Chunk(big, false, true));
    assert a1.inProgress == "" + big;
    var (a2, r2) := AddStep(a1, Chunk("b", false, true));
    var (a3, r3) := AddStep(a2, Chunk(tail, true, true));
    assert "" + tail == tail;
  }
}
