/** A Kodi session told from its events alone (src/core/kodi_client.cpp: HandleNotification, ReconcilePoll,
    ConnectAndPrime). Nothing here counts stops or keeps the code's flags: a poll is overtaken once a stop is
    handled after its players were read, and an identity is notified from the item that told it until the
    playback ends. */
module KodiHeard {
  import opened Wrappers
  import opened KodiJson
  import opened KodiNowPlaying

  /** The reply a poll has asked for. */
  datatype Phase =
    | Resting
    | AppAsked
    | PlayersAsked
    | PropertiesAsked(overtaken: bool)
    | ItemAsked(overtaken: bool, props: Json)

  /** `due`: something was notified, or read too late, that the next poll has to look into. */
  datatype Tale = Tale(phase: Phase, snap: Snap, notified: bool, due: bool, version: Option<Version>)

  const NOTHING_YET := Tale(Resting, Snap(NOTHING_PLAYING, 0, false), false, false, None)

  predicate Showing(np: NowPlaying) {
    np.progress.playback != Inactive || np.id.title != ""
  }

  function Cleared(np: NowPlaying): NowPlaying {
    if Showing(np) then NOTHING_PLAYING else np
  }

  function AtSpeed(p: Progress, speed: int): Progress {
    p.(speed := speed, playback := if speed == 0 then Paused else Playing)
  }

  // ---- Notifications ----

  function Overtaken(p: Phase): Phase {
    match p
    case PropertiesAsked(_) => PropertiesAsked(true)
    case ItemAsked(_, props) => ItemAsked(true, props)
    case _ => p
  }

  function PlayingTold(np: NowPlaying, frame: Json): NowPlaying {
    var item := Told(frame, "item");
    var speed := MapInt(IntOf(In(Told(frame, "player"), "speed")), ClampSpeed);
    NowPlaying(if item.None? then np.id
               else Applied(item.value, if IsNamed(frame, "Player.OnPlay") then NO_ITEM else np.id),
               AtSpeed(np.progress, Or(speed, np.progress.speed)))
  }

  function VolumeHeard(snap: Snap, volume: Option<Json>, muted: Option<Json>): Snap {
    snap.(volume := Or(MapInt(IntOf(volume), ClampVolume), snap.volume), muted := Or(BoolOf(muted), snap.muted))
  }

  function Notified(h: Tale, frame: Json): Tale {
    if IsStop(frame) then
      h.(phase := Overtaken(h.phase), snap := h.snap.(np := Cleared(h.snap.np)), notified := false)
    else if IsPlayer(frame) then
      h.(snap := h.snap.(np := PlayingTold(h.snap.np, frame)),
         notified := h.notified || Told(frame, "item").Some?, due := true)
    else if IsNamed(frame, "Application.OnVolumeChanged") then
      h.(snap := VolumeHeard(h.snap, Told(frame, "volume"), Told(frame, "muted")))
    else h
  }

  // ---- Replies ----

  function VersionRead(r: Option<Json>, known: Option<Version>): Option<Version> {
    var v := In(r, "version");
    if v.Some? && v.value.JObj? then
      Some(Version(Or(IntOf(In(v, "major")), 0), Or(IntOf(In(v, "minor")), 0)))
    else known
  }

  function NumberOr(j: Option<Json>, fallback: real): real {
    match j
    case Some(JInt(i)) => i as real
    case Some(JFloat(f)) => f
    case _ => fallback
  }

  function TimeRead(j: Option<Json>): int {
    if j.Some? then MillisFromTimeObject(j.value) else 0
  }

  /** Properties that come as an object say everything, a missing time being zero. */
  function ProgressRead(p: Progress, r: Option<Json>): Progress {
    if r.Some? && r.value.JObj? then
      AtSpeed(p, ClampSpeed(Or(IntOf(In(r, "speed")), p.speed)))
        .(percent := NumberOr(In(r, "percentage"), p.percent),
          positionMs := TimeRead(In(r, "time")), durationMs := TimeRead(In(r, "totaltime")),
          canSeek := Or(BoolOf(In(r, "canseek")), p.canSeek))
    else p
  }

  function IdentityRead(id: Identity, r: Option<Json>, notified: bool): Identity {
    var item := In(r, "item");
    if notified || item.None? then id else Applied(item.value, id)
  }

  function PlayerRead(np: NowPlaying, props: Json, reply: Json, notified: bool): NowPlaying {
    NowPlaying(IdentityRead(np.id, Field(reply, "result"), notified),
               ProgressRead(np.progress, Field(props, "result")))
  }

  function Replied(h: Tale, reply: Json): Tale {
    var r := Field(reply, "result");
    match h.phase
    case Resting => h
    case AppAsked =>
      h.(phase := PlayersAsked, snap := VolumeHeard(h.snap, In(r, "volume"), In(r, "muted")),
         version := VersionRead(r, h.version))
    case PlayersAsked =>
      if SaysIdle(reply) then h.(phase := Resting, snap := h.snap.(np := Cleared(h.snap.np)), notified := false)
      else h.(phase := if SaysPlaying(reply) then PropertiesAsked(false) else Resting)
    case PropertiesAsked(overtaken) => h.(phase := ItemAsked(overtaken, reply))
    case ItemAsked(overtaken, props) =>
      if overtaken then h.(phase := Resting, due := true)
      else
        h.(phase := Resting,
           snap := h.snap.(np := PlayerRead(h.snap.np, props, reply, h.notified)))
  }

  // ---- The whole tale ----

  function Retold(h: Tale, e: Event): Tale {
    match e
    case Connect =>
      if h.phase.Resting? then h.(phase := AppAsked, snap := h.snap.(np := NOTHING_PLAYING), notified := false) else h
    case BeginPoll => if h.phase.Resting? then h.(phase := AppAsked, due := false) else h
    case Reply(reply) => Replied(h, reply)
    case Fails(_) => h.(phase := Resting)
    case Notify(frame) => Notified(h, frame)
  }

  function TaleOf(es: seq<Event>): Tale {
    if es == [] then NOTHING_YET else Retold(TaleOf(es[..|es| - 1]), es[|es| - 1])
  }

  /** The stop counter says whether the poll in flight was overtaken. */
  predicate PhaseAgrees(poll: Poll, stops: nat, phase: Phase) {
    match poll
    case NoPoll => phase.Resting?
    case AwaitApp => phase.AppAsked?
    case AwaitPlayers => phase.PlayersAsked?
    case AwaitProps(n) => n <= stops && phase == PropertiesAsked(n < stops)
    case AwaitItem(n, props) => n <= stops && phase == ItemAsked(n < stops, props)
  }

  predicate Agrees(s: Session, h: Tale) {
    && PhaseAgrees(s.round.poll, s.marks.stops, h.phase)
    && s.now == h.snap
    && s.marks.fromNote == h.notified && s.marks.needsPoll == h.due && s.marks.version == h.version
  }

  lemma ToldAgrees(snap: Snap, frame: Json)
    ensures IsPlayer(frame) ==> NotedSnap(snap, Decode(frame)) == snap.(np := PlayingTold(snap.np, frame))
    ensures IsStop(frame) ==> NotedSnap(snap, Decode(frame)) == snap.(np := Cleared(snap.np))
  {
  }

  lemma ProgressAgrees(np: NowPlaying, props: Json)
    ensures WithProps(np, props) == np.(progress := ProgressRead(np.progress, Field(props, "result")))
  {
  }

  lemma PlayerReadAgrees(np: NowPlaying, props: Json, reply: Json, notified: bool)
    ensures Polled(np, props, reply, notified) == PlayerRead(np, props, reply, notified)
  {
    ProgressAgrees(np, props);
  }

  lemma NotifiedAgrees(s: Session, h: Tale, frame: Json)
    requires Agrees(s, h)
    ensures Agrees(Step(s, Notify(frame)), Notified(h, frame))
  {
    ToldAgrees(s.now, frame);
  }

  lemma AppAgrees(s: Session, h: Tale, reply: Json)
    requires Agrees(s, h) && s.round.poll.AwaitApp?
    ensures Agrees(OnReply(s, reply), Replied(h, reply))
  {
  }

  lemma PlayersAgrees(s: Session, h: Tale, reply: Json)
    requires Agrees(s, h) && s.round.poll.AwaitPlayers?
    ensures Agrees(OnReply(s, reply), Replied(h, reply))
  {
  }

  /** The poll merges what it read, unless a stop overtook it. */
  lemma ItemIsMerged(s: Session, stops: nat, props: Json, reply: Json)
    ensures var t := OnItem(s, stops, props, reply);
            && t.round.poll.NoPoll? && t.marks.stops == s.marks.stops
            && t.now == (if s.marks.stops != stops then s.now
                         else s.now.(np := PlayerRead(s.now.np, props, reply, s.marks.fromNote)))
            && t.marks.needsPoll == (s.marks.needsPoll || s.marks.stops != stops)
            && t.marks.fromNote == s.marks.fromNote && t.marks.version == s.marks.version
  {
    PlayerReadAgrees(s.now.np, props, reply, s.marks.fromNote);
  }

  lemma ItemAgrees(s: Session, h: Tale, reply: Json)
    requires Agrees(s, h) && s.round.poll.AwaitItem?
    ensures Agrees(OnItem(s, s.round.poll.stops, s.round.poll.props, reply), Replied(h, reply))
  {
    ItemIsMerged(s, s.round.poll.stops, s.round.poll.props, reply);
  }

  lemma StepAgrees(s: Session, h: Tale, e: Event)
    requires Agrees(s, h)
    ensures Agrees(Step(s, e), Retold(h, e))
  {
    if e.Notify? {
      NotifiedAgrees(s, h, e.frame);
    } else if e.Reply? {
      if s.round.poll.AwaitApp? {
        AppAgrees(s, h, e.reply);
      } else if s.round.poll.AwaitPlayers? {
        PlayersAgrees(s, h, e.reply);
      } else if s.round.poll.AwaitItem? {
        ItemAgrees(s, h, e.reply);
      }
    }
  }

  /** In every run the snapshot, the version, what a poll waits for and whether another is due are what the
      frames and replies say, member by member. */
  lemma {:induction false} SnapshotIsWhatWasHeard(es: seq<Event>)
    ensures Agrees(Run(FRESH, es), TaleOf(es))
    decreases |es|
  {
    if es != [] {
      SnapshotIsWhatWasHeard(es[..|es| - 1]);
      StepAgrees(Run(FRESH, es[..|es| - 1]), TaleOf(es[..|es| - 1]), es[|es| - 1]);
    }
  }

  // ---- What a stop leaves behind ----

  /** A stop blanks what is playing exactly when something shows - a playback or a title - or nothing at all is
      left; an identity without either stays. */
  lemma StopBlanksIff(es: seq<Event>, stop: Json)
    requires IsStop(stop)
    ensures var np := Run(FRESH, es).now.np;
            && Run(FRESH, es + [Notify(stop)]).now.np == (if Showing(np) then NOTHING_PLAYING else np)
            && (Run(FRESH, es + [Notify(stop)]).now.np == NOTHING_PLAYING
                <==> np.progress.playback != Inactive || np.id.title != "" || np == NOTHING_PLAYING)
  {
    SnapshotIsWhatWasHeard(es);
    SnapshotIsWhatWasHeard(es + [Notify(stop)]);
    assert (es + [Notify(stop)])[..|es|] == es;
  }

  lemma TaleSnoc(es: seq<Event>, e: Event)
    ensures TaleOf(es + [e]) == Retold(TaleOf(es), e)
  {
    assert (es + [e])[..|es|] == es;
  }

  lemma PropertiesMissing(app: Json, players: Json, props: Json) returns (es: seq<Event>)
    requires SaysPlaying(players)
    ensures es == [BeginPoll, Reply(app), Reply(players), Reply(props)]
    ensures var h := TaleOf(es);
            h.phase == ItemAsked(false, props) && !h.notified && h.snap.np == NOTHING_PLAYING
  {
    es := [];
    TaleSnoc(es, BeginPoll);
    es := es + [BeginPoll];
    TaleSnoc(es, Reply(app));
    es := es + [Reply(app)];
    TaleSnoc(es, Reply(players));
    es := es + [Reply(players)];
    TaleSnoc(es, Reply(props));
    es := es + [Reply(props)];
  }

  lemma OnlyAShow(h: Tale, item: Json, stop: Json)
    requires h.phase.ItemAsked? && !h.phase.overtaken && !h.notified && h.snap.np == NOTHING_PLAYING
    requires Field(h.phase.props, "result").None? && IsStop(stop)
    requires Field(item, "result") == Some(JObj(map["item" := JObj(map["showtitle" := JStr("Show")])]))
    ensures Retold(Retold(h, Reply(item)), Notify(stop)).snap.np.id == NO_ITEM.(showTitle := "Show")
  {
    var said := JObj(map["showtitle" := JStr("Show")]);
    assert In(Field(item, "result"), "item") == Some(said);
    assert Applied(said, NO_ITEM) == NO_ITEM.(showTitle := "Show");
  }

  /** Such a run: a poll is told of a player, gets no properties, and an item that has a show but no title; the show
      then outlives the stop. */
  lemma ShowOutlivesStop(app: Json, players: Json, props: Json, item: Json, stop: Json)
    requires SaysPlaying(players) && Field(props, "result").None? && IsStop(stop)
    requires Field(item, "result") == Some(JObj(map["item" := JObj(map["showtitle" := JStr("Show")])]))
    ensures var es := [BeginPoll, Reply(app), Reply(players), Reply(props)] + [Reply(item)] + [Notify(stop)];
            Run(FRESH, es).now.np.id == NO_ITEM.(showTitle := "Show")
  {
    var es := PropertiesMissing(app, players, props);
    OnlyAShow(TaleOf(es), item, stop);
    TaleSnoc(es, Reply(item));
    TaleSnoc(es + [Reply(item)], Notify(stop));
    SnapshotIsWhatWasHeard(es + [Reply(item)] + [Notify(stop)]);
  }

  // ---- What is published, and what drops the link ----

  /** A notification is published exactly when it tells something: a stop while something shows, a volume or
      mute that can be read, or anything about the player. */
  lemma NotificationIsPublishedIff(s: Session, frame: Json)
    ensures var told := (IsStop(frame) && Showing(s.now.np)) || IsPlayer(frame)
                        || (IsNamed(frame, "Application.OnVolumeChanged")
                            && (IntOf(Told(frame, "volume")).Some? || BoolOf(Told(frame, "muted")).Some?));
            Step(s, Notify(frame)).events == s.events + if told then 1 else 0
  {
    var n := Decode(frame);
    assert Announces(s.now, n) ==> Step(s, Notify(frame)).events == s.events + 1;
  }

  predicate PollOnly(es: seq<Event>) {
    forall i :: 0 <= i < |es| ==> es[i].Reply? || es[i].Fails?
  }

  /** What a poll that began in `start` has published so far. */
  predicate Publishing(start: Session, t: Session) {
    if t.round.poll.NoPoll? then t.events == start.events + if t.now == start.now then 0 else 1
    else t.events == start.events && !t.round.priming && (t.round.changed <==> t.now != start.now)
         && (!t.round.poll.AwaitApp? ==> t.now.np == start.now.np)
         && (t.round.poll.AwaitApp? ==> t.now == start.now)
  }

  lemma {:induction false} PublishingRun(start: Session, t: Session, es: seq<Event>)
    requires Publishing(start, t) && PollOnly(es)
    ensures Publishing(start, Run(t, es))
    decreases |es|
  {
    if es != [] {
      PublishingRun(start, t, es[..|es| - 1]);
    }
  }

  /** A poll that no notification interrupts is published once if it leaves another snapshot, and not at all
      if it leaves the same: an idle screen is never drawn again. */
  lemma PollIsPublishedIffItChanges(before: seq<Event>, es: seq<Event>)
    requires Run(FRESH, before).round.poll.NoPoll? && PollOnly(es)
    requires Run(Step(Run(FRESH, before), BeginPoll), es).round.poll.NoPoll?
    ensures var s := Run(FRESH, before);
            var t := Run(Step(s, BeginPoll), es);
            t.events == s.events + if t.now == s.now then 0 else 1
  {
    var s := Run(FRESH, before);
    PublishingRun(s, Step(s, BeginPoll), es);
  }

  /** Only a failed call gives up on the link; a poll read to its end keeps it, and any failure of a
      connection's first poll gives it up. */
  lemma OnlyFailuresDropTheLink(s: Session, e: Event)
    ensures s.marks.alive && !Step(s, e).marks.alive ==> e.Fails? && !s.round.poll.NoPoll?
    ensures e.Reply? && !s.round.poll.NoPoll? && Step(s, e).round.poll.NoPoll? ==> Step(s, e).marks.alive
    ensures e.Fails? && s.round.priming && !s.round.poll.NoPoll? ==> !Step(s, e).marks.alive
    ensures e.Connect? && s.round.poll.NoPoll? ==> Step(s, e).round.priming
  {
    if e.Reply? && s.round.poll.AwaitPlayers? {
      assert OnPlayers(s, e.reply).marks.alive || OnPlayers(s, e.reply).round.poll.AwaitProps?;
    }
  }
}
