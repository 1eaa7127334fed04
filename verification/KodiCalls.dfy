/** Matching JSON-RPC replies to requests on a socket that also carries pushed notifications
    (src/core/kodi_client.cpp: Call, PumpNotifications, SendPendingCommands).

    A frame is modelled by its parse, None when it is not JSON. `Link` logs what was read, who was
    waiting for it, what was handled as a notification and what was returned as a reply. */
module KodiCalls {
  import opened Wrappers
  import opened KodiJson

  const MAX_PUMP_ITERATIONS := 32

  /** The frame at position `at` of what was read was returned for request `id`. */
  datatype Answer = Answer(id: nat, at: nat)

  datatype Log = Log(read: seq<Option<Json>>, waiter: seq<Option<nat>>, handled: seq<Json>, answers: seq<Answer>)

  datatype Link = Link(sent: seq<nat>, waiting: Option<nat>, busy: bool, log: Log)

  const UNUSED := Link([], None, false, Log([], [], [], []))

  datatype Event =
    | BeginCall
    | Command
    | Arrive(frame: Option<Json>)
    | SliceOver
    | GiveUp
    | Close

  function IdOf(frame: Json): Option<int> {
    IntOf(Field(frame, "id"))
  }

  predicate RepliesTo(frame: Option<Json>, id: nat) {
    frame.Some? && IdOf(frame.value).Some? && ToInt32(IdOf(frame.value).value) == id
  }

  predicate IsPush(frame: Option<Json>) {
    frame.Some? && Field(frame.value, "method").Some?
  }

  predicate HasTextMethod(frame: Json) {
    StringOf(Field(frame, "method")).Some?
  }

  /** Whether the frame tells that Kodi answered something, so no listing holds it up. */
  predicate ClearsBusy(frame: Option<Json>, waiting: bool) {
    frame.Some? && IdOf(frame.value).Some? && (waiting || !HasTextMethod(frame.value))
  }

  function Send(l: Link): Link {
    l.(sent := l.sent + [|l.sent| + 1])
  }

  function Append(log: Log, frame: Option<Json>, waiting: Option<nat>): Log {
    log.(read := log.read + [frame], waiter := log.waiter + [waiting])
  }

  function OnArrive(l: Link, frame: Option<Json>): Link {
    var log := Append(l.log, frame, l.waiting);
    var busy := l.busy && !ClearsBusy(frame, l.waiting.Some?);
    if l.waiting.Some? && RepliesTo(frame, l.waiting.value) then
      l.(waiting := None, busy := busy,
         log := log.(answers := log.answers + [Answer(l.waiting.value, |l.log.read|)]))
    else if IsPush(frame) then
      l.(busy := busy, log := log.(handled := log.handled + [frame.value]))
    else l.(busy := busy, log := log)
  }

  function Step(l: Link, e: Event): Link {
    match e
    case BeginCall => if l.waiting.None? then Send(l).(waiting := Some(|l.sent| + 1)) else l
    case Command => if l.waiting.None? then Send(l) else l
    case Arrive(frame) => OnArrive(l, frame)
    case SliceOver => l.(busy := true)
    case GiveUp => l.(waiting := None)
    case Close => l.(waiting := None, busy := false)
  }

  function Run(l: Link, es: seq<Event>): Link {
    if es == [] then l else Step(Run(l, es[..|es| - 1]), es[|es| - 1])
  }

  // ---- What the events alone say ----

  /** A frame of this id, as an int sees it. */
  predicate IsReply(frame: Option<Json>, id: nat) {
    && frame.Some? && frame.value.JObj? && "id" in frame.value.fields && frame.value.fields["id"].JInt?
    && (frame.value.fields["id"].i - id) % 0x1_0000_0000 == 0 && id < 0x8000_0000
  }

  predicate IsPushed(frame: Option<Json>) {
    frame.Some? && frame.value.JObj? && "method" in frame.value.fields
  }

  /** Kodi answered something: an id that is a number, on a frame that is no notification or is read by a call. */
  predicate ShowsLife(frame: Option<Json>, called: bool) {
    && frame.Some? && frame.value.JObj? && "id" in frame.value.fields && frame.value.fields["id"].JInt?
    && (called || !IsPushed(frame) || !frame.value.fields["method"].JStr?)
  }

  datatype Story = Story(sent: nat, waiting: Option<nat>, busy: bool, read: seq<Option<Json>>,
                         waiter: seq<Option<nat>>, handled: seq<Json>)

  function Retold(h: Story, e: Event): Story {
    match e
    case BeginCall => if h.waiting.None? then h.(sent := h.sent + 1, waiting := Some(h.sent + 1)) else h
    case Command => if h.waiting.None? then h.(sent := h.sent + 1) else h
    case Arrive(frame) =>
      var replied := h.waiting.Some? && IsReply(frame, h.waiting.value);
      Story(h.sent, if replied then None else h.waiting, h.busy && !ShowsLife(frame, h.waiting.Some?),
            h.read + [frame], h.waiter + [h.waiting],
            if IsPushed(frame) && !replied then h.handled + [frame.value] else h.handled)
    case SliceOver => h.(busy := true)
    case GiveUp => h.(waiting := None)
    case Close => h.(waiting := None, busy := false)
  }

  function StoryOf(es: seq<Event>): Story {
    if es == [] then Story(0, None, false, [], [], []) else Retold(StoryOf(es[..|es| - 1]), es[|es| - 1])
  }

  lemma ReplyIff(frame: Option<Json>, id: nat)
    ensures RepliesTo(frame, id) <==> IsReply(frame, id)
  {
    if frame.Some? && IdOf(frame.value).Some? {
      Narrowed(IdOf(frame.value).value, id);
    }
  }

  lemma Narrowed(i: int, id: nat)
    ensures ToInt32(i) == id <==> (i - id) % 0x1_0000_0000 == 0 && id < 0x8000_0000
  {
  }

  predicate AsTold(l: Link, h: Story) {
    && |l.sent| == h.sent && l.waiting == h.waiting && l.busy == h.busy
    && l.log.read == h.read && l.log.waiter == h.waiter && l.log.handled == h.handled
  }

  /** In every run who waits for which id, what was handled as pushed and whether Kodi looks busy are what the
      frames themselves say. */
  lemma {:induction false} LinkIsAsTold(es: seq<Event>)
    ensures AsTold(Run(UNUSED, es), StoryOf(es))
    decreases |es|
  {
    if es != [] {
      LinkIsAsTold(es[..|es| - 1]);
    }
  }

  // ---- What a run logs ----

  ghost predicate Answered(answers: seq<Answer>, i: nat) {
    exists k :: 0 <= k < |answers| && answers[k].at == i
  }

  /** The pushed frames among the first n read that were not taken as a reply, in order. */
  ghost function PushesRead(log: Log, n: nat): seq<Json>
    requires n <= |log.read|
  {
    if n == 0 then []
    else
      var earlier := PushesRead(log, n - 1);
      if IsPushed(log.read[n - 1]) && !Answered(log.answers, n - 1) then earlier + [log.read[n - 1].value] else earlier
  }

  /** A frame is returned exactly when it replies to the request being waited for. */
  ghost predicate AnswersExactly(log: Log) {
    && |log.waiter| == |log.read|
    && forall i :: 0 <= i < |log.read| ==>
         (Answered(log.answers, i) <==> log.waiter[i].Some? && IsReply(log.read[i], log.waiter[i].value))
  }

  predicate AnswersInOrder(answers: seq<Answer>) {
    forall j, k :: 0 <= j < k < |answers| ==> answers[j].at < answers[k].at && answers[j].id < answers[k].id
  }

  predicate AnswersAreLogged(log: Log, sent: nat) {
    && |log.waiter| == |log.read|
    && forall k :: 0 <= k < |log.answers| ==>
         log.answers[k].at < |log.read| && log.waiter[log.answers[k].at] == Some(log.answers[k].id)
         && 1 <= log.answers[k].id <= sent
  }

  predicate Numbered(sent: seq<nat>) {
    forall i :: 0 <= i < |sent| ==> sent[i] == i + 1
  }

  ghost predicate LogOk(log: Log, sent: nat) {
    && AnswersExactly(log)
    && AnswersInOrder(log.answers)
    && AnswersAreLogged(log, sent)
    && log.handled == PushesRead(log, |log.read|)
  }

  ghost predicate Inv(l: Link) {
    && Numbered(l.sent)
    && LogOk(l.log, |l.sent|)
    && (l.waiting.Some? ==> (1 <= l.waiting.value <= |l.sent|
                             && forall k :: 0 <= k < |l.log.answers| ==> l.log.answers[k].id < l.waiting.value))
  }

  lemma AnsweredGrows(answers: seq<Answer>, a: Answer, i: nat)
    ensures Answered(answers + [a], i) <==> Answered(answers, i) || a.at == i
  {
    var more := answers + [a];
    if k :| 0 <= k < |answers| && answers[k].at == i {
      assert more[k].at == i;
    }
    if a.at == i {
      assert more[|answers|].at == i;
    }
  }

  lemma {:induction false} PushesReadKept(log: Log, more: Log, n: nat)
    requires n <= |log.read| <= |more.read|
    requires forall i :: 0 <= i < n ==> more.read[i] == log.read[i]
    requires forall i :: 0 <= i < n ==> (Answered(more.answers, i) <==> Answered(log.answers, i))
    ensures PushesRead(more, n) == PushesRead(log, n)
    decreases n
  {
    if n > 0 {
      PushesReadKept(log, more, n - 1);
    }
  }

  lemma UnansweredArrival(log: Log, frame: Option<Json>, waiting: Option<nat>, sent: nat)
    requires LogOk(log, sent)
    requires !(waiting.Some? && IsReply(frame, waiting.value))
    ensures var handled := if IsPush(frame) then log.handled + [frame.value] else log.handled;
            LogOk(Append(log, frame, waiting).(handled := handled), sent)
  {
    var n := |log.read|;
    var handled := if IsPush(frame) then log.handled + [frame.value] else log.handled;
    var more := Append(log, frame, waiting).(handled := handled);
    assert !Answered(log.answers, n);
    forall i | 0 <= i < |more.read|
      ensures Answered(more.answers, i) <==> more.waiter[i].Some? && IsReply(more.read[i], more.waiter[i].value)
    {
      if i < n {
        assert more.read[i] == log.read[i] && more.waiter[i] == log.waiter[i];
      }
    }
    PushesReadKept(log, more, n);
  }

  lemma AnsweredArrival(log: Log, frame: Option<Json>, id: nat, sent: nat)
    requires LogOk(log, sent) && 1 <= id <= sent
    requires forall k :: 0 <= k < |log.answers| ==> log.answers[k].id < id
    requires IsReply(frame, id)
    ensures LogOk(Append(log, frame, Some(id)).(answers := log.answers + [Answer(id, |log.read|)]), sent)
  {
    var n := |log.read|;
    var a := Answer(id, n);
    var more := Append(log, frame, Some(id)).(answers := log.answers + [a]);
    forall i | 0 <= i < |more.read|
      ensures Answered(more.answers, i) <==> more.waiter[i].Some? && IsReply(more.read[i], more.waiter[i].value)
    {
      AnsweredGrows(log.answers, a, i);
      if i < n {
        assert more.read[i] == log.read[i] && more.waiter[i] == log.waiter[i];
      }
    }
    forall i | 0 <= i < n
      ensures Answered(more.answers, i) <==> Answered(log.answers, i)
    {
      AnsweredGrows(log.answers, a, i);
    }
    PushesReadKept(log, more, n);
    assert Answered(more.answers, n) by {
      AnsweredGrows(log.answers, a, n);
    }
  }

  lemma StepKeepsInv(l: Link, e: Event)
    requires Inv(l)
    ensures Inv(Step(l, e))
  {
    if e.Arrive? {
      if l.waiting.Some? {
        ReplyIff(e.frame, l.waiting.value);
      }
      if l.waiting.Some? && RepliesTo(e.frame, l.waiting.value) {
        AnsweredArrival(l.log, e.frame, l.waiting.value, |l.sent|);
      } else {
        UnansweredArrival(l.log, e.frame, l.waiting, |l.sent|);
      }
    }
  }

  lemma {:induction false} RunKeepsInv(es: seq<Event>)
    ensures Inv(Run(UNUSED, es))
    decreases |es|
  {
    if es != [] {
      RunKeepsInv(es[..|es| - 1]);
      StepKeepsInv(Run(UNUSED, es[..|es| - 1]), es[|es| - 1]);
    }
  }

  // ---- Main results ----

  /** Requests carry ids no other request carries. */
  lemma IdsAreUnique(es: seq<Event>, i: nat, j: nat)
    requires var sent := Run(UNUSED, es).sent; i < |sent| && j < |sent|
    ensures var sent := Run(UNUSED, es).sent; sent[i] == sent[j] ==> i == j
  {
    RunKeepsInv(es);
  }

  /** Whatever arrives, a frame is returned exactly when it carries the id of the request being waited
      for; no frame is returned twice and no request is answered twice. */
  lemma RepliesAreMatched(es: seq<Event>)
    ensures var log := Run(UNUSED, es).log;
            && AnswersExactly(log)
            && AnswersInOrder(log.answers)
            && AnswersAreLogged(log, |Run(UNUSED, es).sent|)
  {
    RunKeepsInv(es);
  }

  /** Every pushed frame read is handled once, in the order read, unless it was itself the reply. */
  lemma PushesAreHandledOnceInOrder(es: seq<Event>)
    ensures var log := Run(UNUSED, es).log;
            log.handled == PushesRead(log, |log.read|)
  {
    RunKeepsInv(es);
  }

  /** The frame returned carries the very id that was sent, which no other request carries, exactly when
      the id it carries fits an int: a late reply to an earlier request is never returned. */
  lemma AnswerIsForThisRequest(es: seq<Event>, k: nat)
    requires k < |Run(UNUSED, es).log.answers|
    ensures var l := Run(UNUSED, es);
            var a := l.log.answers[k];
            && a.at < |l.log.read| && l.log.read[a.at].Some?
            && IdOf(l.log.read[a.at].value).Some?
            && ToInt32(IdOf(l.log.read[a.at].value).value) == a.id
            && (-0x8000_0000 <= IdOf(l.log.read[a.at].value).value < 0x8000_0000 <==>
                IdOf(l.log.read[a.at].value).value == a.id)
            && 1 <= a.id <= |l.sent| && l.sent[a.id - 1] == a.id
  {
    RunKeepsInv(es);
    var l := Run(UNUSED, es);
    var a := l.log.answers[k];
    assert Answered(l.log.answers, a.at);
    ReplyIff(l.log.read[a.at], a.id);
  }

  /** An id is compared after narrowing to int, so one that differs by 2 to the 32 is taken for it. */
  lemma WideIdIsTaken(id: nat)
    requires 1 <= id < 0x8000_0000
    ensures RepliesTo(Some(JObj(map["id" := JInt(id + 0x1_0000_0000)])), id)
  {
    var frame := JObj(map["id" := JInt(id + 0x1_0000_0000)]);
    assert Field(frame, "id") == Some(JInt(id + 0x1_0000_0000));
    assert (id + 0x1_0000_0000) % 0x1_0000_0000 == id;
  }

  // ---- The client ----

  /** What one wait on the socket came to: a frame, silence (the link still open or not, `sliced` when
      only the first slice had run out), or the deadline found passed. */
  datatype Rx = Text(frame: Option<Json>) | Silence(open: bool, sliced: bool) | Deadline(open: bool)

  datatype CallResult = Reply(frame: Json) | TimedOut | Dead | StopRequested

  function ReadEvents(rx: seq<Rx>): seq<Event> {
    if rx == [] then []
    else
      ReadEvents(rx[..|rx| - 1])
      + (match rx[|rx| - 1]
         case Text(frame) => [Arrive(frame)]
         case Silence(_, _) => [SliceOver]
         case Deadline(_) => [])
  }

  function CallEvents(rx: seq<Rx>, answered: bool): seq<Event> {
    if answered then Begun(rx) else Begun(rx) + [GiveUp]
  }

  function Begun(rx: seq<Rx>): seq<Event> {
    [BeginCall] + ReadEvents(rx)
  }

  predicate CutShort(rx: Rx, open: bool) {
    match rx
    case Text(_) => false
    case Silence(o, _) => o == open
    case Deadline(o) => o == open
  }

  /** What the socket did to end the call that way: the reply was the last frame read; a timeout or a dead
      link is the wait that followed; a stop came once nothing was left. */
  predicate Explains(rx: seq<Rx>, id: nat, result: CallResult, used: nat) {
    match result
    case Reply(frame) => 0 < used <= |rx| && rx[used - 1] == Text(Some(frame)) && RepliesTo(Some(frame), id)
    case TimedOut => used < |rx| && CutShort(rx[used], true)
    case Dead => used < |rx| && CutShort(rx[used], false)
    case StopRequested => used == |rx|
  }

  /** How a call that waits ends, and where reading stands then: at the first reply to it, at the first wait
      that is not just a first slice over, or when nothing is left. */
  function WaitFrom(l: Link, rx: seq<Rx>, i: nat, reportBusy: bool): (CallResult, nat)
    requires i <= |rx| && l.waiting.Some?
    decreases |rx| - i
  {
    if i == |rx| then (StopRequested, i)
    else
      match rx[i]
      case Deadline(open) => (if open then TimedOut else Dead, i)
      case Silence(open, sliced) =>
        if sliced && reportBusy && !l.busy && open then WaitFrom(Step(l, SliceOver), rx, i + 1, reportBusy)
        else (if open then TimedOut else Dead, i)
      case Text(frame) =>
        if RepliesTo(frame, l.waiting.value) then (Reply(frame.value), i + 1)
        else WaitFrom(Step(l, Arrive(frame)), rx, i + 1, reportBusy)
  }

  /** Whether Kodi still looks busy when reading has got from i to j, having looked `busy` at i. */
  predicate BusyAt(busy: bool, rx: seq<Rx>, i: nat, j: nat)
    requires i <= j <= |rx|
    decreases j - i
  {
    if i == j then busy
    else
      match rx[i]
      case Text(frame) => BusyAt(busy && !ShowsLife(frame, true), rx, i + 1, j)
      case Silence(_, _) => BusyAt(true, rx, i + 1, j)
      case Deadline(_) => BusyAt(busy, rx, i + 1, j)
  }

  /** A wait that does not end the call: a frame that is no reply to it, or the first slice running out on an
      open link that does not look busy, for a caller who wants to know. */
  predicate GoesOn(rx: Rx, id: nat, reportBusy: bool, busy: bool) {
    match rx
    case Text(frame) => !IsReply(frame, id)
    case Silence(open, sliced) => open && sliced && reportBusy && !busy
    case Deadline(_) => false
  }

  /** How the wait at which a call ends tells the caller. */
  predicate EndsAs(rx: Rx, result: CallResult) {
    match rx
    case Text(frame) => frame.Some? && result == Reply(frame.value)
    case Silence(open, _) => result == if open then TimedOut else Dead
    case Deadline(open) => result == if open then TimedOut else Dead
  }

  /** A call ends at the first wait that does not let it go on, and as that wait says; or it is stopped. */
  lemma {:induction false} CallEndsAtTheFirst(l: Link, rx: seq<Rx>, i: nat, reportBusy: bool) returns (last: nat)
    requires i <= |rx| && l.waiting.Some?
    ensures i <= last <= |rx|
    ensures forall j :: i <= j < last ==> GoesOn(rx[j], l.waiting.value, reportBusy, BusyAt(l.busy, rx, i, j))
    ensures var (result, used) := WaitFrom(l, rx, i, reportBusy);
            if last == |rx| then result == StopRequested && used == last
            else !GoesOn(rx[last], l.waiting.value, reportBusy, BusyAt(l.busy, rx, i, last))
                 && EndsAs(rx[last], result) && used == last + if rx[last].Text? then 1 else 0
    decreases |rx| - i
  {
    last := i;
    if i < |rx| {
      if rx[i].Text? {
        ReplyIff(rx[i].frame, l.waiting.value);
        if !RepliesTo(rx[i].frame, l.waiting.value) {
          last := CallEndsAtTheFirst(Step(l, Arrive(rx[i].frame)), rx, i + 1, reportBusy);
        }
      } else if GoesOn(rx[i], l.waiting.value, reportBusy, l.busy) {
        last := CallEndsAtTheFirst(Step(l, SliceOver), rx, i + 1, reportBusy);
      }
    }
  }

  /** The answers logged once a call for `id` has ended: its reply is the last frame read. */
  function AnswersAfter(before: seq<Answer>, id: nat, result: CallResult, read: nat): seq<Answer>
    requires result.Reply? ==> read > 0
  {
    if result.Reply? then before + [Answer(id, read - 1)] else before
  }

  class KodiLink {
    var nextRpcId: nat
    var libraryBusy: bool
    var lastCallTimedOut: bool
    ghost var waiting: Option<nat>
    ghost var sent: seq<nat>
    ghost var log: Log

    ghost predicate Valid()
      reads this
    {
      nextRpcId == |sent|
    }

    ghost function View(): Link
      reads this
    {
      Link(sent, waiting, libraryBusy, log)
    }

    constructor ()
      ensures Valid() && View() == UNUSED
    {
      nextRpcId, libraryBusy, lastCallTimedOut := 0, false, false;
      waiting, sent, log := None, [], Log([], [], [], []);
    }

    /** A frame read while `id` is waited for; `matched` when it is the reply. */
    method OnFrame(frame: Option<Json>, id: nat) returns (matched: bool)
      requires Valid() && waiting == Some(id)
      modifies this`libraryBusy, this`waiting, this`log
      ensures View() == Step(old(View()), Arrive(frame))
      ensures matched <==> RepliesTo(frame, id)
      ensures waiting == if matched then None else Some(id)
      ensures |log.read| > 0 && log.answers == if matched then old(log.answers) + [Answer(id, |log.read| - 1)]
                                              else old(log.answers)
    {
      matched := false;
      ghost var at := |log.read|;
      log := Append(log, frame, waiting);
      if frame.None? || !frame.value.JObj? {
        return;
      }
      var replyId := IdOf(frame.value);
      if replyId.Some? {
        libraryBusy := false;
        if ToInt32(replyId.value) == id {
          log := log.(answers := log.answers + [Answer(id, at)]);
          waiting := None;
          return true;
        }
      }
      if Field(frame.value, "method").Some? {
        log := log.(handled := log.handled + [frame.value]);
      }
    }

    /** One wait of a call on the socket; `ended` is the outcome when the call ends here. */
    method WaitOnce(next: Rx, id: nat, reportBusy: bool) returns (ended: Option<CallResult>)
      requires Valid() && waiting == Some(id) && !lastCallTimedOut
      modifies this`libraryBusy, this`lastCallTimedOut, this`waiting, this`log
      ensures Valid()
      ensures ended.None? ==> waiting == Some(id) && !lastCallTimedOut && !next.Deadline?
      ensures ended.Some? ==> waiting.None? && lastCallTimedOut == ended.value.TimedOut? && !ended.value.StopRequested?
      ensures next.Text? ==>
                (View() == Step(old(View()), Arrive(next.frame))
                 && (ended.Some? <==> RepliesTo(next.frame, id))
                 && (ended.Some? ==> next.frame.Some? && ended.value == Reply(next.frame.value)))
      ensures !next.Text? ==>
                (View() == Step(old(View()), if ended.None? then SliceOver else GiveUp)
                 && (ended.Some? ==> ended.value == if next.open then TimedOut else Dead))
      ensures next.Silence? ==> (ended.None? <==> next.sliced && reportBusy && !old(libraryBusy) && next.open)
      ensures next.Deadline? ==> ended.Some?
      ensures ended.None? ==> log.answers == old(log.answers)
      ensures ended.Some? && ended.value.Reply? ==> |log.read| > 0
      ensures ended.Some? ==> log.answers == AnswersAfter(old(log.answers), id, ended.value, |log.read|)
    {
      match next {
        case Deadline(open) => ended := EndCall(open);
        case Silence(open, sliced) => {
          if sliced && reportBusy && !libraryBusy && open {
            libraryBusy := true;
            return None;
          }
          ended := EndCall(open);
        }
        case Text(frame) => {
          var matched := OnFrame(frame, id);
          ended := if matched then Some(Reply(frame.value)) else None;
        }
      }
    }

    /** One turn of the wait loop, against the run since the call began; `used` is where reading stands. */
    method WaitAt(rx: seq<Rx>, at: nat, id: nat, reportBusy: bool, ghost before: Link)
      returns (ended: Option<CallResult>, used: nat)
      requires Valid() && waiting == Some(id) && !lastCallTimedOut && at < |rx|
      requires View() == Run(before, Begun(rx[..at]))
      modifies this`libraryBusy, this`lastCallTimedOut, this`waiting, this`log
      ensures Valid() && at <= used <= |rx|
      ensures ended.None? ==> used == at + 1 && waiting == Some(id) && !lastCallTimedOut
      ensures ended.None? ==> View() == Run(before, Begun(rx[..used]))
      ensures ended.Some? ==> waiting.None? && lastCallTimedOut == ended.value.TimedOut?
      ensures ended.Some? ==> View() == Run(before, CallEvents(rx[..used], ended.value.Reply?))
      ensures ended.Some? ==> Explains(rx, id, ended.value, used)
      ensures WaitFrom(old(View()), rx, at, reportBusy)
           == if ended.Some? then (ended.value, used) else WaitFrom(View(), rx, used, reportBusy)
      ensures ended.None? ==> log.answers == old(log.answers)
      ensures ended.Some? && ended.value.Reply? ==> |log.read| > 0
      ensures ended.Some? ==> log.answers == AnswersAfter(old(log.answers), id, ended.value, |log.read|)
    {
      ReadOne(before, rx, at);
      ended := WaitOnce(rx[at], id, reportBusy);
      used := if ended.Some? && !rx[at].Text? then at else at + 1;
    }

    /** No reply came: a timeout on a link still open, a dead link otherwise. */
    method EndCall(open: bool) returns (ended: Option<CallResult>)
      requires Valid()
      modifies this`lastCallTimedOut, this`waiting
      ensures Valid() && View() == Step(old(View()), GiveUp)
      ensures lastCallTimedOut == open && ended == Some(if open then TimedOut else Dead)
    {
      lastCallTimedOut := open;
      waiting := None;
      ended := Some(if open then TimedOut else Dead);
    }

    method StartCall() returns (id: nat)
      requires Valid() && waiting.None?
      modifies this`lastCallTimedOut, this`nextRpcId, this`sent, this`waiting
      ensures Valid() && id == |sent| && waiting == Some(id) && !lastCallTimedOut
      ensures View() == Step(old(View()), BeginCall)
    {
      lastCallTimedOut := false;
      nextRpcId := nextRpcId + 1;
      id := nextRpcId;
      sent := sent + [id];
      waiting := Some(id);
    }

    ghost method GiveUpWaiting(rx: seq<Rx>, before: Link)
      requires View() == Run(before, Begun(rx))
      modifies this`waiting
      ensures waiting.None? && View() == Run(before, CallEvents(rx, false))
    {
      waiting := None;
    }

    /** Waits until the reply, or until something else ends the call. */
    method AwaitReply(rx: seq<Rx>, id: nat, reportBusy: bool, ghost before: Link)
      returns (result: CallResult, used: nat)
      requires Valid() && waiting == Some(id) && !lastCallTimedOut
      requires View() == Run(before, Begun(rx[..0]))
      modifies this`libraryBusy, this`lastCallTimedOut, this`waiting, this`log
      ensures Valid() && waiting.None? && lastCallTimedOut == result.TimedOut?
      ensures used <= |rx| && View() == Run(before, CallEvents(rx[..used], result.Reply?))
      ensures Explains(rx, id, result, used)
      ensures (result, used) == WaitFrom(old(View()), rx, 0, reportBusy)
      ensures result.Reply? ==> |log.read| > 0
      ensures log.answers == AnswersAfter(old(log.answers), id, result, |log.read|)
    {
      used := 0;
      while used < |rx|
        invariant Valid() && used <= |rx| && !lastCallTimedOut && waiting == Some(id)
        invariant View() == Run(before, Begun(rx[..used]))
        invariant WaitFrom(old(View()), rx, 0, reportBusy) == WaitFrom(View(), rx, used, reportBusy)
        invariant log.answers == old(log.answers)
        decreases |rx| - used
      {
        var ended;
        ended, used := WaitAt(rx, used, id, reportBusy, before);
        if ended.Some? {
          return ended.value, used;
        }
      }
      GiveUpWaiting(rx[..used], before);
      return StopRequested, used;
    }

    /** `rx` is what the socket yields, wait by wait; stop is requested once it is used up. */
    method Call(rx: seq<Rx>, sendOk: bool, reportBusy: bool) returns (result: CallResult, used: nat)
      requires Valid() && waiting.None?
      modifies this
      ensures Valid() && waiting.None? && lastCallTimedOut == result.TimedOut?
      ensures used <= |rx| && View() == Run(old(View()), CallEvents(rx[..used], result.Reply?))
      ensures if sendOk then Explains(rx, |sent|, result, used) else result.Dead? && used == 0
      ensures sendOk ==> (result, used) == WaitFrom(Step(old(View()), BeginCall), rx, 0, reportBusy)
      ensures result.Reply? ==> |log.read| > 0
      ensures log.answers == AnswersAfter(old(log.answers), |sent|, result, |log.read|)
    {
      ghost var before := View();
      var id := StartCall();
      if !sendOk {
        GiveUpWaiting(rx[..0], before);
        return Dead, 0;
      }
      result, used := AwaitReply(rx, id, reportBusy, before);
    }

    /** A command is sent without waiting for its reply. */
    method SendCommand()
      requires Valid() && waiting.None?
      modifies this`nextRpcId, this`sent
      ensures Valid() && View() == Step(old(View()), Command)
    {
      nextRpcId := nextRpcId + 1;
      sent := sent + [nextRpcId];
    }

    /** One frame that nobody waits for. */
    method PumpOne(frame: Option<Json>)
      requires waiting.None?
      modifies this`libraryBusy, this`log
      ensures View() == Step(old(View()), Arrive(frame))
    {
      log := Append(log, frame, None);
      if frame.None? {
        return;
      }
      if !HasTextMethod(frame.value) && IdOf(frame.value).Some? {
        libraryBusy := false;
      }
      if Field(frame.value, "method").Some? {
        log := log.(handled := log.handled + [frame.value]);
      }
    }

    /** Handles what has already arrived, at most as many frames as the receive queue holds. */
    method PumpNotifications(frames: seq<Option<Json>>)
      requires Valid() && waiting.None?
      modifies this`libraryBusy, this`log
      ensures Valid()
      ensures var n := if |frames| < MAX_PUMP_ITERATIONS then |frames| else MAX_PUMP_ITERATIONS;
              View() == Run(old(View()), Arrivals(frames[..n]))
    {
      var i := 0;
      while i < MAX_PUMP_ITERATIONS && i < |frames|
        invariant 0 <= i <= |frames| && i <= MAX_PUMP_ITERATIONS
        invariant View() == Run(old(View()), Arrivals(frames[..i]))
      {
        assert frames[..i + 1][..i] == frames[..i];
        PumpOne(frames[i]);
        i := i + 1;
      }
    }
  }

  function Arrivals(frames: seq<Option<Json>>): (es: seq<Event>)
    ensures |es| == |frames| && forall i :: 0 <= i < |frames| ==> es[i] == Arrive(frames[i])
  {
    if frames == [] then [] else Arrivals(frames[..|frames| - 1]) + [Arrive(frames[|frames| - 1])]
  }

  lemma ReadOne(l: Link, rx: seq<Rx>, i: nat)
    requires i < |rx|
    ensures var t := Run(l, Begun(rx[..i]));
            var u := Run(l, Begun(rx[..i + 1]));
            match rx[i]
            case Text(frame) => u == Step(t, Arrive(frame))
            case Silence(_, _) => u == Step(t, SliceOver)
            case Deadline(_) => u == t
  {
    assert rx[..i + 1][..i] == rx[..i];
    var es := Begun(rx[..i]);
    match rx[i]
    case Text(frame) => {
      assert Begun(rx[..i + 1]) == es + [Arrive(frame)];
    }
    case Silence(_, _) => {
      assert Begun(rx[..i + 1]) == es + [SliceOver];
    }
    case Deadline(_) => assert Begun(rx[..i + 1]) == es;
  }
}
