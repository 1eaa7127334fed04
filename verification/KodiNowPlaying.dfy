/** What a Kodi session says is playing, merged from pushed notifications and polls
    (src/core/kodi_client.cpp: HandleNotification, ReconcilePoll, ConnectAndPrime).

    A poll is four calls, and notifications arrive while each of them waits. `Step` is the loop
    thread's side of that exchange: a poll in flight remembers what it has read, a notification may
    come between any two replies. */
module KodiNowPlaying {
  import opened Wrappers
  import opened KodiJson

  const MAX_TOLERATED_POLL_TIMEOUTS := 3

  /** A notification as HandleNotification reads it. */
  datatype RawNote =
    | Volume(volume: Option<int>, muted: Option<bool>)
    | Stop
    | Player(item: Option<Json>, speed: Option<int>, begins: bool)
    | Nothing

  /** What can be decoded: numbers are clamped on the way in. */
  predicate NoteOk(n: RawNote) {
    match n
    case Volume(v, _) => v.Some? ==> 0 <= v.value <= MAX_VOLUME
    case Player(_, speed, _) => speed.Some? ==> -MAX_SPEED <= speed.value <= MAX_SPEED
    case _ => true
  }

  /** A decoded notification; no other reaches the machine. */
  type Note = n: RawNote | NoteOk(n) witness Nothing

  function MapInt(o: Option<int>, f: int -> int): Option<int> {
    if o.Some? then Some(f(o.value)) else None
  }

  /** What a notification says about `key`. */
  function Told(frame: Json, key: string): Option<Json> {
    In(In(Field(frame, "params"), "data"), key)
  }

  predicate IsNamed(frame: Json, name: string) {
    Field(frame, "method") == Some(JStr(name))
  }

  predicate IsStop(frame: Json) {
    IsNamed(frame, "Player.OnStop")
  }

  /** Every other notification about the player says that something plays. */
  predicate IsPlayer(frame: Json) {
    frame.JObj? && "method" in frame.fields && frame.fields["method"].JStr?
    && "Player.On" <= frame.fields["method"].s && frame.fields["method"].s != "Player.OnStop"
  }

  function DataOf(frame: Json): (data: Json)
    ensures forall key :: Field(data, key) == Told(frame, key)
  {
    match ObjectOf(Field(frame, "params"))
    case Some(params) => Or(ObjectOf(Field(params, "data")), JObj(map[]))
    case None => JObj(map[])
  }

  /** What HandleNotification makes of a frame, by its method. */
  function Decode(frame: Json): (n: Note)
    ensures n.Stop? <==> IsStop(frame)
    ensures n.Volume? <==> IsNamed(frame, "Application.OnVolumeChanged")
    ensures n.Player? <==> IsPlayer(frame)
    ensures n.Player? ==>
              && n.item == Told(frame, "item")
              && (n.begins <==> IsNamed(frame, "Player.OnPlay"))
              && n.speed == MapInt(IntOf(In(Told(frame, "player"), "speed")), ClampSpeed)
    ensures n.Volume? ==>
              && n.volume == MapInt(IntOf(Told(frame, "volume")), ClampVolume)
              && n.muted == BoolOf(Told(frame, "muted"))
  {
    match StringOf(Field(frame, "method"))
    case None => Nothing
    case Some(name) =>
      var data := DataOf(frame);
      if name == "Application.OnVolumeChanged" then
        assert "Player.On"[0] != name[0];
        Volume(MapInt(IntOf(Field(data, "volume")), ClampVolume), BoolOf(Field(data, "muted")))
      else if name == "Player.OnStop" then Stop
      else if "Player.On" <= name then
        Player(Field(data, "item"),
               MapInt(IntOf(In(Field(data, "player"), "speed")), ClampSpeed),
               name == "Player.OnPlay")
      else Nothing
  }

  /** What the screens can read of a session. */
  datatype Snap = Snap(np: NowPlaying, volume: int, muted: bool)

  /** The poll in flight: which reply it waits for and what it read before. */
  datatype Poll =
    | NoPoll
    | AwaitApp
    | AwaitPlayers
    | AwaitProps(stops: nat)
    | AwaitItem(stops: nat, props: Json)

  datatype Round = Round(poll: Poll, changed: bool, priming: bool)

  /** `fromNote`: a notification supplied the identity. `timeouts`: polls ended by a timeout since Kodi
      last answered a poll's first call. `alive`: what the last poll returned. `version`: the one last
      reported, which no event announces. */
  datatype Marks = Marks(stops: nat, fromNote: bool, needsPoll: bool, timeouts: nat, alive: bool,
                         version: Option<Version>)

  datatype Version = Version(major: int, minor: int)

  /** `announced` is the snapshot at the latest event that makes the screens read it again, of `events` so far. */
  datatype Session = Session(now: Snap, announced: Snap, events: nat, marks: Marks, round: Round)

  const FRESH := Session(Snap(NOTHING_PLAYING, 0, false), Snap(NOTHING_PLAYING, 0, false), 0,
                         Marks(0, false, false, 0, true, None), Round(NoPoll, false, false))

  // ---- Notifications ----

  function WithIdentity(np: NowPlaying, item: Option<Json>, begins: bool): NowPlaying {
    if item.None? then np else np.(id := Applied(item.value, if begins then NO_ITEM else np.id))
  }

  function WithSpeed(np: NowPlaying, speed: Option<int>): NowPlaying {
    var s := Or(speed, np.progress.speed);
    np.(progress := np.progress.(speed := s, playback := PlaybackFromSpeed(s)))
  }

  /** A stop, or a poll that finds nothing playing, blanks the screen unless it already looks blank. */
  function Blanked(np: NowPlaying): NowPlaying {
    if !np.progress.playback.Inactive? || np.id.title != "" then NOTHING_PLAYING else np
  }

  function NotedSnap(snap: Snap, n: RawNote): Snap {
    match n
    case Volume(v, m) => snap.(volume := Or(v, snap.volume), muted := Or(m, snap.muted))
    case Stop => snap.(np := Blanked(snap.np))
    case Player(item, speed, begins) => snap.(np := WithSpeed(WithIdentity(snap.np, item, begins), speed))
    case Nothing => snap
  }

  function NotedMarks(m: Marks, n: RawNote): Marks {
    match n
    case Stop => m.(stops := m.stops + 1, fromNote := false)
    case Player(item, _, _) => m.(fromNote := m.fromNote || item.Some?, needsPoll := true)
    case _ => m
  }

  /** Whether handling the notification publishes an event. */
  predicate Announces(snap: Snap, n: RawNote) {
    match n
    case Volume(v, m) => v.Some? || m.Some?
    case Stop => !snap.np.progress.playback.Inactive? || snap.np.id.title != ""
    case Player(_, _, _) => true
    case Nothing => false
  }

  function PublishIf(s: Session, due: bool): Session {
    if due then s.(announced := s.now, events := s.events + 1) else s
  }

  function Noted(s: Session, n: Note): Session {
    PublishIf(s.(now := NotedSnap(s.now, n), marks := NotedMarks(s.marks, n)), Announces(s.now, n))
  }

  // ---- Polls ----

  /** A poll ends: what it changed is announced, and a first poll ends in a connection state event. */
  function Finish(s: Session, alive: bool): Session {
    PublishIf(s, s.round.changed || s.round.priming).(marks := s.marks.(alive := alive),
                                                      round := Round(NoPoll, false, false))
  }

  function SetNow(s: Session, now: Snap): Session {
    s.(now := now, round := s.round.(changed := s.round.changed || now != s.now))
  }

  function AppSnap(snap: Snap, reply: Json): Snap {
    match ObjectOf(Field(reply, "result"))
    case None => snap
    case Some(r) =>
      snap.(volume := Or(MapInt(IntOf(Field(r, "volume")), ClampVolume), snap.volume),
            muted := Or(BoolOf(Field(r, "muted")), snap.muted))
  }

  function VersionIn(reply: Json): Option<Version> {
    match ObjectOf(Field(reply, "result"))
    case None => None
    case Some(r) =>
      match ObjectOf(Field(r, "version"))
      case None => None
      case Some(v) => Some(Version(GetInt(v, "major", 0), GetInt(v, "minor", 0)))
  }

  function ActivePlayers(reply: Json): seq<Json> {
    Or(ArrayOf(Field(reply, "result")), [])
  }

  function PlayerId(players: seq<Json>): int
    requires players != []
  {
    ToInt32(GetInt(players[0], "playerid", -1))
  }

  function WithProps(np: NowPlaying, reply: Json): NowPlaying {
    match ObjectOf(Field(reply, "result"))
    case None => np
    case Some(r) =>
      var p := np.progress;
      var speed := ClampSpeed(GetInt(r, "speed", p.speed));
      np.(progress := Progress(PlaybackFromSpeed(speed), speed, GetReal(r, "percentage", p.percent),
                               MillisFromTimeObject(Or(Field(r, "time"), JObj(map[]))),
                               MillisFromTimeObject(Or(Field(r, "totaltime"), JObj(map[]))),
                               GetBool(r, "canseek", p.canSeek)))
  }

  function ItemIn(reply: Json): Option<Json> {
    match ObjectOf(Field(reply, "result"))
    case Some(r) => Field(r, "item")
    case None => None
  }

  function Polled(np: NowPlaying, props: Json, reply: Json, fromNote: bool): NowPlaying {
    var q := WithProps(np, props);
    if fromNote then q else WithIdentity(q, ItemIn(reply), false)
  }

  function OnPlayers(s: Session, reply: Json): Session {
    var players := ActivePlayers(reply);
    if players == [] then
      Finish(SetNow(s, s.now.(np := Blanked(s.now.np))).(marks := s.marks.(fromNote := false)), true)
    else if PlayerId(players) < 0 then Finish(s, true)
    else s.(round := s.round.(poll := AwaitProps(s.marks.stops)))
  }

  /** Replies read across a stop are dropped, and the next poll is due at once. */
  function OnItem(s: Session, stops: nat, props: Json, reply: Json): Session {
    if s.marks.stops != stops then Finish(s.(marks := s.marks.(needsPoll := true)), true)
    else Finish(SetNow(s, s.now.(np := Polled(s.now.np, props, reply, s.marks.fromNote))), true)
  }

  function OnReply(s: Session, reply: Json): Session {
    match s.round.poll
    case NoPoll => s
    case AwaitApp =>
      var t := SetNow(s, AppSnap(s.now, reply));
      var version := if VersionIn(reply).Some? then VersionIn(reply) else t.marks.version;
      t.(marks := t.marks.(timeouts := 0, version := version), round := t.round.(poll := AwaitPlayers))
    case AwaitPlayers => OnPlayers(s, reply)
    case AwaitProps(stops) => s.(round := s.round.(poll := AwaitItem(stops, reply)))
    case AwaitItem(stops, props) => OnItem(s, stops, props, reply)
  }

  function OnFailure(s: Session, timedOut: bool): Session {
    if s.round.poll.NoPoll? then s
    else if s.round.priming || !timedOut then Finish(s, false)
    else
      var n := s.marks.timeouts + 1;
      Finish(s.(marks := s.marks.(timeouts := n)), n < MAX_TOLERATED_POLL_TIMEOUTS)
  }

  datatype Event =
    | Connect
    | BeginPoll
    | Reply(reply: Json)
    | Fails(timedOut: bool)
    | Notify(frame: Json)

  function Step(s: Session, e: Event): Session {
    match e
    case Connect =>
      if s.round.poll.NoPoll? then
        s.(now := s.now.(np := NOTHING_PLAYING), marks := s.marks.(fromNote := false),
           round := Round(AwaitApp, false, true))
      else s
    case BeginPoll =>
      if s.round.poll.NoPoll? then
        s.(marks := s.marks.(needsPoll := false), round := Round(AwaitApp, false, false))
      else s
    case Reply(reply) => OnReply(s, reply)
    case Fails(timedOut) => OnFailure(s, timedOut)
    case Notify(frame) => Noted(s, Decode(frame))
  }

  function Run(s: Session, es: seq<Event>): Session {
    if es == [] then s else Step(Run(s, es[..|es| - 1]), es[|es| - 1])
  }

  lemma {:induction false} RunConcat(s: Session, a: seq<Event>, b: seq<Event>)
    ensures Run(s, a + b) == Run(Run(s, a), b)
    decreases |b|
  {
    if b == [] {
      assert a + b == a;
    } else {
      var n := |b| - 1;
      assert (a + b)[..|a + b| - 1] == a + b[..n];
      RunConcat(s, a, b[..n]);
    }
  }

  // ---- What every step keeps ----

  /** The poll in flight has not seen a later stop; playback agrees with the speed; every number is in
      its range; and outside a first poll, a snapshot not announced is one the poll will announce. */
  ghost predicate Inv(s: Session) {
    && StopsSeen(s)
    && SnapOk(s.now)
    && (s.announced == s.now || s.round.changed || s.round.priming)
    && (s.round.poll.NoPoll? ==> !s.round.changed && !s.round.priming)
  }

  predicate StopsSeen(s: Session) {
    && (s.round.poll.AwaitProps? ==> s.round.poll.stops <= s.marks.stops)
    && (s.round.poll.AwaitItem? ==> s.round.poll.stops <= s.marks.stops)
  }

  predicate SnapOk(snap: Snap) {
    && 0 <= snap.volume <= MAX_VOLUME
    && ProgressOk(snap.np.progress)
    && IdentityOk(snap.np.id)
  }

  predicate ProgressOk(p: Progress) {
    && -MAX_SPEED <= p.speed <= MAX_SPEED
    && (p.playback.Inactive? ==> p.speed == 0)
    && (!p.playback.Inactive? ==> p.playback == PlaybackFromSpeed(p.speed))
    && 0 <= p.positionMs < 0x1_0000_0000_0000
    && 0 <= p.durationMs < 0x1_0000_0000_0000
  }

  predicate IdentityOk(id: Identity) {
    -1 <= id.season <= MAX_SEASON_OR_EPISODE && -1 <= id.episode <= MAX_SEASON_OR_EPISODE
  }

  lemma NotedSnapOk(snap: Snap, n: RawNote)
    requires SnapOk(snap) && NoteOk(n)
    ensures SnapOk(NotedSnap(snap, n))
    ensures NotedSnap(snap, n) == snap || Announces(snap, n)
  {
  }

  lemma PolledOk(np: NowPlaying, props: Json, reply: Json, fromNote: bool)
    requires ProgressOk(np.progress) && IdentityOk(np.id)
    ensures ProgressOk(Polled(np, props, reply, fromNote).progress)
    ensures IdentityOk(Polled(np, props, reply, fromNote).id)
  {
  }

  lemma AppReplyKeepsInv(s: Session, reply: Json)
    requires Inv(s) && s.round.poll.AwaitApp?
    ensures Inv(OnReply(s, reply))
  {
    assert SnapOk(AppSnap(s.now, reply));
  }

  lemma PlayersReplyKeepsInv(s: Session, reply: Json)
    requires Inv(s) && s.round.poll.AwaitPlayers?
    ensures Inv(OnPlayers(s, reply))
  {
    assert SnapOk(s.now.(np := Blanked(s.now.np)));
  }

  lemma ItemReplyKeepsInv(s: Session, stops: nat, props: Json, reply: Json)
    requires Inv(s) && s.round.poll == AwaitItem(stops, props)
    ensures Inv(OnItem(s, stops, props, reply))
  {
    PolledOk(s.now.np, props, reply, s.marks.fromNote);
  }

  lemma ReplyKeepsInv(s: Session, reply: Json)
    requires Inv(s)
    ensures Inv(OnReply(s, reply))
  {
    match s.round.poll
    case AwaitApp => AppReplyKeepsInv(s, reply);
    case AwaitPlayers => PlayersReplyKeepsInv(s, reply);
    case AwaitItem(stops, props) => ItemReplyKeepsInv(s, stops, props, reply);
    case _ => {}
  }

  lemma StepKeepsInv(s: Session, e: Event)
    requires Inv(s)
    ensures Inv(Step(s, e))
  {
    if e.Reply? {
      ReplyKeepsInv(s, e.reply);
    } else if e.Notify? {
      NotedSnapOk(s.now, Decode(e.frame));
    }
  }

  lemma {:induction false} RunKeepsInv(es: seq<Event>)
    ensures Inv(Run(FRESH, es))
    decreases |es|
  {
    if es != [] {
      var n := |es| - 1;
      RunKeepsInv(es[..n]);
      StepKeepsInv(Run(FRESH, es[..n]), es[n]);
    }
  }

  /** Between polls the screens show what the session holds: every change was announced. */
  lemma ScreensAreCurrent(es: seq<Event>)
    requires Run(FRESH, es).round.poll.NoPoll?
    ensures Run(FRESH, es).announced == Run(FRESH, es).now
  {
    RunKeepsInv(es);
  }

  /** Whatever Kodi replies, volume, speed, times and episode numbers stay in their ranges, and the
      playback state is the one its speed says. */
  lemma NumbersStayInRange(es: seq<Event>)
    ensures SnapOk(Run(FRESH, es).now)
  {
    RunKeepsInv(es);
  }

  // ---- Volume and mute ----

  /** The volume and mute a step hears from Kodi: a notification, or the reply to a poll's first call. */
  function Heard(s: Session, e: Event): (Option<int>, Option<bool>) {
    match e
    case Notify(frame) =>
      if IsNamed(frame, "Application.OnVolumeChanged") then
        (MapInt(IntOf(Told(frame, "volume")), ClampVolume), BoolOf(Told(frame, "muted")))
      else (None, None)
    case Reply(reply) =>
      if s.round.poll.AwaitApp? then
        (MapInt(IntOf(In(Field(reply, "result"), "volume")), ClampVolume), BoolOf(In(Field(reply, "result"), "muted")))
      else (None, None)
    case _ => (None, None)
  }

  function LatestVolume(s: Session, es: seq<Event>): int {
    if es == [] then s.now.volume
    else Or(Heard(Run(s, es[..|es| - 1]), es[|es| - 1]).0, LatestVolume(s, es[..|es| - 1]))
  }

  function LatestMuted(s: Session, es: seq<Event>): bool {
    if es == [] then s.now.muted
    else Or(Heard(Run(s, es[..|es| - 1]), es[|es| - 1]).1, LatestMuted(s, es[..|es| - 1]))
  }

  lemma StepHears(s: Session, e: Event)
    ensures Step(s, e).now.volume == Or(Heard(s, e).0, s.now.volume)
    ensures Step(s, e).now.muted == Or(Heard(s, e).1, s.now.muted)
  {
    if e.Reply? && s.round.poll.AwaitItem? {
      assert OnItem(s, s.round.poll.stops, s.round.poll.props, e.reply).now.volume == s.now.volume;
    }
  }

  /** Volume and mute are the last ones heard, from whichever side: stops, reconnects and dropped replies
      never touch them. */
  lemma {:induction false} VolumeIsTheLatestHeard(s: Session, es: seq<Event>)
    ensures Run(s, es).now.volume == LatestVolume(s, es) && Run(s, es).now.muted == LatestMuted(s, es)
    decreases |es|
  {
    if es != [] {
      VolumeIsTheLatestHeard(s, es[..|es| - 1]);
      StepHears(Run(s, es[..|es| - 1]), es[|es| - 1]);
    }
  }

  // ---- A stop stays stopped ----

  /** The reply names no player at all. */
  predicate SaysIdle(reply: Json) {
    var result := Field(reply, "result");
    !(result.Some? && result.value.JArr? && result.value.items != [])
  }

  /** The reply names a first player, and by a number that is one. */
  predicate SaysPlaying(reply: Json) {
    && !SaysIdle(reply)
    && ToInt32(Or(IntOf(Field(Field(reply, "result").value.items[0], "playerid")), -1)) >= 0
  }

  /** The step reports something playing: a Player notification other than a stop, or an active player
      in the reply a poll was waiting for. */
  predicate Revives(s: Session, e: Event) {
    || (e.Notify? && IsPlayer(e.frame))
    || (e.Reply? && s.round.poll.AwaitPlayers? && SaysPlaying(e.reply))
  }

  ghost predicate Quiet(s: Session, es: seq<Event>) {
    forall i :: 0 <= i < |es| ==> !RevivesAt(s, es, i)
  }

  predicate RevivesAt(s: Session, es: seq<Event>, i: nat)
    requires i < |es|
  {
    Revives(Run(s, es[..i]), es[i])
  }

  /** Nothing plays, and no poll in flight can write what it read before the stop. */
  predicate Stopped(s: Session, np: NowPlaying) {
    && s.now.np.progress.playback.Inactive?
    && (s.now.np == np || s.now.np == NOTHING_PLAYING)
    && (s.round.poll.AwaitProps? ==> s.round.poll.stops < s.marks.stops)
    && (s.round.poll.AwaitItem? ==> s.round.poll.stops < s.marks.stops)
  }

  lemma QuietStepStaysStopped(s: Session, e: Event, np: NowPlaying)
    requires Stopped(s, np) && !Revives(s, e)
    ensures Stopped(Step(s, e), np)
  {
    if e.Reply? && s.round.poll.AwaitPlayers? {
      QuietPlayers(s, e.reply, np);
    }
  }

  lemma QuietPlayers(s: Session, reply: Json, np: NowPlaying)
    requires Stopped(s, np) && s.round.poll.AwaitPlayers?
    requires !SaysPlaying(reply)
    ensures Stopped(OnPlayers(s, reply), np)
  {
  }

  lemma {:induction false} QuietRunStaysStopped(s: Session, es: seq<Event>, np: NowPlaying)
    requires Stopped(s, np) && Quiet(s, es)
    ensures Stopped(Run(s, es), np)
    decreases |es|
  {
    if es != [] {
      var n := |es| - 1;
      assert Quiet(s, es[..n]) by {
        forall i | 0 <= i < n
          ensures !RevivesAt(s, es[..n], i)
        {
          assert es[..n][..i] == es[..i] && !RevivesAt(s, es, i);
        }
      }
      assert !RevivesAt(s, es, n);
      QuietRunStaysStopped(s, es[..n], np);
      QuietStepStaysStopped(Run(s, es[..n]), es[n], np);
    }
  }

  /** Once a stop is handled nothing is playing until a later Player notification, or a players reply
      received after the stop, says so - whatever replies were in flight when it came. */
  lemma StopStaysStopped(before: seq<Event>, stop: Json, after: seq<Event>)
    requires IsStop(stop) && Quiet(Step(Run(FRESH, before), Notify(stop)), after)
    ensures var end := Run(FRESH, before + [Notify(stop)] + after);
            && end.now.np.progress.playback.Inactive?
            && end.now.np.id.title == ""
  {
    RunKeepsInv(before);
    var s := Run(FRESH, before);
    var t := Step(s, Notify(stop));
    assert Run(FRESH, before + [Notify(stop)]) == t by {
      assert (before + [Notify(stop)])[..|before|] == before;
    }
    QuietRunStaysStopped(t, after, t.now.np);
    RunConcat(FRESH, before + [Notify(stop)], after);
  }

  // ---- Identity follows the notifications ----

  predicate TellsItem(e: Event) {
    e.Notify? && IsPlayer(e.frame) && Told(e.frame, "item").Some?
  }

  /** The items of the playback that the last OnPlay with an item began. */
  function ItemsSincePlay(es: seq<Event>): seq<Json> {
    if es == [] then []
    else
      var e := es[|es| - 1];
      var items := ItemsSincePlay(es[..|es| - 1]);
      if TellsItem(e) then
        (if IsNamed(e.frame, "Player.OnPlay") then [] else items) + [Told(e.frame, "item").value]
      else items
  }

  /** The step ends the playback: a stop, a poll that finds nothing playing, or a new connection. */
  predicate EndsPlayback(s: Session, e: Event) {
    || (e.Notify? && IsStop(e.frame))
    || (e.Reply? && s.round.poll.AwaitPlayers? && SaysIdle(e.reply))
    || (e.Connect? && s.round.poll.NoPoll?)
  }

  ghost predicate SamePlayback(s: Session, es: seq<Event>) {
    forall i :: 0 <= i < |es| ==> !EndsAt(s, es, i)
  }

  predicate EndsAt(s: Session, es: seq<Event>, i: nat)
    requires i < |es|
  {
    EndsPlayback(Run(s, es[..i]), es[i])
  }

  predicate IsPlay(e: Event) {
    TellsItem(e) && IsNamed(e.frame, "Player.OnPlay")
  }

  lemma PlaybackStep(s: Session, e: Event)
    requires s.marks.fromNote && !EndsPlayback(s, e)
    ensures var t := Step(s, e);
            && t.marks.fromNote
            && t.now.np.id == if TellsItem(e) then
                                Applied(Told(e.frame, "item").value,
                                        if IsNamed(e.frame, "Player.OnPlay") then NO_ITEM else s.now.np.id)
                              else s.now.np.id
  {
  }

  lemma SamePlaybackPrefix(s: Session, es: seq<Event>)
    requires es != [] && SamePlayback(s, es)
    ensures SamePlayback(s, es[..|es| - 1])
    ensures !EndsPlayback(Run(s, es[..|es| - 1]), es[|es| - 1])
  {
    var n := |es| - 1;
    forall i | 0 <= i < n
      ensures !EndsAt(s, es[..n], i)
    {
      assert es[..n][..i] == es[..i] && !EndsAt(s, es, i);
    }
    assert !EndsAt(s, es, n);
  }

  /** The identity is the merge of the items since the OnPlay. */
  ghost predicate Follows(t: Session, items: seq<Json>) {
    t.marks.fromNote && t.now.np.id == AppliedAll(items, NO_ITEM)
  }

  lemma PlaybackBegins(s: Session, play: Event)
    requires IsPlay(play)
    ensures Follows(Step(s, play), ItemsSincePlay([play]))
  {
    var items := ItemsSincePlay([play]);
    assert items == [Told(play.frame, "item").value];
    assert items[..0] == [];
  }

  lemma PlaybackGoesOn(t: Session, es: seq<Event>, e: Event)
    requires Follows(t, ItemsSincePlay(es)) && !EndsPlayback(t, e)
    ensures Follows(Step(t, e), ItemsSincePlay(es + [e]))
  {
    PlaybackStep(t, e);
  }

  lemma {:induction false} PlaybackRun(t: Session, seen: seq<Event>, es: seq<Event>)
    requires Follows(t, ItemsSincePlay(seen)) && SamePlayback(t, es)
    ensures Follows(Run(t, es), ItemsSincePlay(seen + es))
    decreases |es|
  {
    if es == [] {
      assert seen + es == seen;
    } else {
      var n := |es| - 1;
      SamePlaybackPrefix(t, es);
      PlaybackRun(t, seen, es[..n]);
      PlaybackGoesOn(Run(t, es[..n]), seen + es[..n], es[n]);
      assert seen + es == seen + es[..n] + [es[n]];
    }
  }

  /** From an OnPlay that carries an item until a stop, an idle poll or a reconnect, each identity field
      is the latest usable value among the items notified since, whatever GetItem replies. */
  lemma IdentityIsWhatWasNotified(before: seq<Event>, play: Event, es: seq<Event>)
    requires IsPlay(play) && SamePlayback(Step(Run(FRESH, before), play), es)
    ensures var items := ItemsSincePlay([play] + es);
            (Run(FRESH, before + [play] + es).now.np.id
             == Identity(Latest(items, TitleIn, ""), Latest(items, ShowTitleIn, ""), Latest(items, SeasonIn, -1),
                         Latest(items, EpisodeIn, -1), Latest(items, MediaTypeIn, "")))
  {
    var s := Run(FRESH, before);
    PlaybackBegins(s, play);
    PlaybackRun(Step(s, play), [play], es);
    MergeKeepsTheLatest(ItemsSincePlay([play] + es), NO_ITEM);
    assert (before + [play])[..|before|] == before;
    RunConcat(FRESH, before + [play], es);
  }

  // ---- When a poll gives up on the link ----

  /** How a poll ended: its first call timed out, a later one did, the link was dead, or it was read. */
  datatype PollEnd = Silent | CutOff | Broken | Complete

  predicate FirstCallAnswered(p: Poll) {
    p.AwaitPlayers? || p.AwaitProps? || p.AwaitItem?
  }

  /** The poll this step ends, if any. */
  function EndOf(s: Session, e: Event): seq<PollEnd> {
    if s.round.poll.NoPoll? then []
    else
      match e
      case Fails(timedOut) => [if !timedOut then Broken else if FirstCallAnswered(s.round.poll) then CutOff else Silent]
      case Reply(_) => if Step(s, e).round.poll.NoPoll? then [Complete] else []
      case _ => []
  }

  function PollEnds(s: Session, es: seq<Event>): seq<PollEnd> {
    if es == [] then []
    else PollEnds(s, es[..|es| - 1]) + EndOf(Run(s, es[..|es| - 1]), es[|es| - 1])
  }

  /** How many polls in a row, up to now, got no answer at all. */
  function SilentInARow(ends: seq<PollEnd>): nat {
    if ends == [] || ends[|ends| - 1] != Silent then 0 else 1 + SilentInARow(ends[..|ends| - 1])
  }

  /** The poll before those, the last one answered at its first call, itself timed out later. */
  predicate AfterCutOff(ends: seq<PollEnd>) {
    ends != [] && (ends[|ends| - 1] == CutOff || (ends[|ends| - 1] == Silent && AfterCutOff(ends[..|ends| - 1])))
  }

  function Streak(ends: seq<PollEnd>): nat {
    SilentInARow(ends) + if AfterCutOff(ends) then 1 else 0
  }

  predicate LinkUp(s: Session) {
    s.marks.alive && !s.round.priming
  }

  /** The connection is not given up along the run. */
  ghost predicate StaysUp(s: Session, es: seq<Event>) {
    forall i :: 0 <= i <= |es| ==> LinkUp(Run(s, es[..i]))
  }

  predicate Counts(s: Session, ends: seq<PollEnd>) {
    && s.marks.timeouts < MAX_TOLERATED_POLL_TIMEOUTS
    && s.marks.timeouts == if FirstCallAnswered(s.round.poll) then 0 else Streak(ends)
  }

  lemma StreakGrows(ends: seq<PollEnd>, e: PollEnd)
    ensures Streak(ends + [e]) == match e { case Silent => Streak(ends) + 1 case CutOff => 1 case _ => 0 }
    ensures SilentInARow(ends + [e]) == if e == Silent then SilentInARow(ends) + 1 else 0
    ensures AfterCutOff(ends + [e]) == match e { case Silent => AfterCutOff(ends) case CutOff => true case _ => false }
  {
    assert (ends + [e])[..|ends|] == ends;
  }

  lemma CountsStep(s: Session, e: Event, ends: seq<PollEnd>)
    requires Counts(s, ends) && LinkUp(s) && LinkUp(Step(s, e))
    ensures Counts(Step(s, e), ends + EndOf(s, e))
  {
    var end := EndOf(s, e);
    assert ends + [] == ends;
    if end != [] {
      StreakGrows(ends, end[0]);
    }
    if e.Reply? {
      CountsReply(s, e.reply, ends);
    }
  }

  lemma CountsReply(s: Session, reply: Json, ends: seq<PollEnd>)
    requires Counts(s, ends) && LinkUp(s)
    ensures Counts(Step(s, Reply(reply)), ends + EndOf(s, Reply(reply)))
  {
    assert ends + [] == ends;
    StreakGrows(ends, Complete);
  }

  lemma {:induction false} CountsRun(s: Session, es: seq<Event>)
    requires s.round.poll.NoPoll? && s.marks.timeouts == 0 && StaysUp(s, es)
    ensures Counts(Run(s, es), PollEnds(s, es))
    decreases |es|
  {
    if es != [] {
      var n := |es| - 1;
      assert es[..|es|] == es;
      assert LinkUp(Run(s, es[..n])) && LinkUp(Run(s, es[..|es|]));
      forall i | 0 <= i <= n
        ensures LinkUp(Run(s, es[..n][..i]))
      {
        assert es[..n][..i] == es[..i];
      }
      CountsRun(s, es[..n]);
      CountsStep(Run(s, es[..n]), es[n], PollEnds(s, es[..n]));
    }
  }

  /** A first poll whose first call is answered starts the count anew. */
  predicate PrimesClean(s: Session) {
    s.round.priming && FirstCallAnswered(s.round.poll) ==> s.marks.timeouts == 0
  }

  lemma PrimesCleanStep(s: Session, e: Event)
    requires PrimesClean(s)
    ensures PrimesClean(Step(s, e))
    ensures s.round.priming && Step(s, e).round.poll.NoPoll? && Step(s, e).marks.alive && !s.round.poll.NoPoll? ==>
              Step(s, e).marks.timeouts == 0
  {
    if e.Reply? {
      PrimesCleanReply(s, e.reply);
    }
  }

  lemma PrimesCleanReply(s: Session, reply: Json)
    requires PrimesClean(s)
    ensures PrimesClean(OnReply(s, reply))
    ensures FirstCallAnswered(s.round.poll) ==> OnReply(s, reply).marks.timeouts == s.marks.timeouts
    ensures s.round.poll.AwaitApp? ==> !OnReply(s, reply).round.poll.NoPoll?
  {
  }

  lemma {:induction false} PrimesCleanRun(es: seq<Event>)
    ensures PrimesClean(Run(FRESH, es))
    decreases |es|
  {
    if es != [] {
      PrimesCleanRun(es[..|es| - 1]);
      PrimesCleanStep(Run(FRESH, es[..|es| - 1]), es[|es| - 1]);
    }
  }

  /** The run ends as a first poll succeeds: the connection is up. */
  ghost predicate JustConnected(es: seq<Event>) {
    && es != []
    && Run(FRESH, es[..|es| - 1]).round.priming && !Run(FRESH, es[..|es| - 1]).round.poll.NoPoll?
    && Run(FRESH, es).round.poll.NoPoll? && Run(FRESH, es).marks.alive
  }

  /** Since the connection came up, a poll that fails drops it exactly when the link is dead, or this is the
      third silent poll in a row - counting as one of them a poll that was cut off just before. */
  lemma LinkIsDroppedIff(before: seq<Event>, es: seq<Event>, timedOut: bool)
    requires JustConnected(before) && StaysUp(Run(FRESH, before), es)
    requires !Run(Run(FRESH, before), es).round.poll.NoPoll?
    ensures var s := Run(FRESH, before);
            var ends := PollEnds(s, es + [Fails(timedOut)]);
            var dropped := !Run(s, es + [Fails(timedOut)]).marks.alive;
            && (dropped <==> !timedOut || Streak(ends) >= MAX_TOLERATED_POLL_TIMEOUTS)
            && Streak(ends) <= MAX_TOLERATED_POLL_TIMEOUTS
  {
    var n := |before| - 1;
    PrimesCleanRun(before[..n]);
    PrimesCleanStep(Run(FRESH, before[..n]), before[n]);
    var s := Run(FRESH, before);
    CountsRun(s, es);
    var t := Run(s, es);
    var e := Fails(timedOut);
    assert (es + [e])[..|es|] == es;
    assert es[..|es|] == es && LinkUp(t);
    StreakGrows(PollEnds(s, es), EndOf(t, e)[0]);
  }

  /** The documented rule - dropped by timeouts after three polls in a row without any answer - is the
      code's exactly when the last poll answered at its first call did not itself time out later: after such
      a poll two silent ones are enough. */
  lemma DocumentedRuleHoldsIff(before: seq<Event>, es: seq<Event>)
    requires JustConnected(before) && StaysUp(Run(FRESH, before), es)
    requires !Run(Run(FRESH, before), es).round.poll.NoPoll?
    ensures var s := Run(FRESH, before);
            var ends := PollEnds(s, es + [Fails(true)]);
            var dropped := !Run(s, es + [Fails(true)]).marks.alive;
            && ((dropped <==> SilentInARow(ends) >= MAX_TOLERATED_POLL_TIMEOUTS)
                <==> !(SilentInARow(ends) == 2 && AfterCutOff(ends)))
            && (dropped ==> (SilentInARow(ends) >= MAX_TOLERATED_POLL_TIMEOUTS <==> !AfterCutOff(ends)))
  {
    LinkIsDroppedIff(before, es, true);
  }

  /** The documentation asks for three polls in a row without any answer; two are enough after a poll
      whose first call was answered and whose second timed out. */
  lemma TwoSilentPollsCanDropTheLink(app: Json)
    ensures var es := [BeginPoll, Reply(app), Fails(true), BeginPoll, Fails(true), BeginPoll, Fails(true)];
            !Run(FRESH, es).marks.alive
  {
    var es := [BeginPoll, Reply(app), Fails(true), BeginPoll, Fails(true), BeginPoll, Fails(true)];
    var s1 := Step(FRESH, BeginPoll);
    var s2 := Step(s1, Reply(app));
    var s3 := Step(s2, Fails(true));
    assert s3.marks.timeouts == 1 && s3.round.poll.NoPoll?;
    var s4 := Step(s3, BeginPoll);
    var s5 := Step(s4, Fails(true));
    assert s5.marks.timeouts == 2 && s5.round.poll.NoPoll?;
    var s6 := Step(s5, BeginPoll);
    assert !Step(s6, Fails(true)).marks.alive;
    RunUnfolds(FRESH, es, 1);
    RunUnfolds(FRESH, es, 2);
    RunUnfolds(FRESH, es, 3);
    RunUnfolds(FRESH, es, 4);
    RunUnfolds(FRESH, es, 5);
    RunUnfolds(FRESH, es, 6);
    RunUnfolds(FRESH, es, 7);
    assert es[..7] == es;
  }

  lemma RunUnfolds(s: Session, es: seq<Event>, n: nat)
    requires 0 < n <= |es|
    ensures Run(s, es[..n]) == Step(Run(s, es[..n - 1]), es[n - 1])
  {
    assert es[..n][..n - 1] == es[..n - 1];
  }
}
