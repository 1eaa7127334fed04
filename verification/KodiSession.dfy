/** The loop thread's code that keeps a Kodi session's snapshot (src/core/kodi_client.cpp). Each method
    is tied to the steps of KodiNowPlaying it takes; a call to Kodi is a parameter: the frames handled
    while it waited and how it ended. */
module KodiSessions {
  import opened Wrappers
  import opened KodiJson
  import opened KodiNowPlaying

  /** One call: the pushed frames that arrived before it ended, and its reply or its failure. */
  datatype Exchange = Exchange(pushed: seq<Json>, reply: Option<Json>, timedOut: bool)

  function Pushes(frames: seq<Json>): seq<Event> {
    if frames == [] then [] else Pushes(frames[..|frames| - 1]) + [Notify(frames[|frames| - 1])]
  }

  /** Every pushed frame is handled, in order. */
  lemma {:induction false} PushesAreTheFrames(frames: seq<Json>)
    ensures |Pushes(frames)| == |frames| && forall i :: 0 <= i < |frames| ==> Pushes(frames)[i] == Notify(frames[i])
  {
    if frames != [] {
      PushesAreTheFrames(frames[..|frames| - 1]);
    }
  }

  function Ending(x: Exchange): Event {
    if x.reply.Some? then Reply(x.reply.value) else Fails(x.timedOut)
  }

  function During(x: Exchange): seq<Event> {
    Pushes(x.pushed) + [Ending(x)]
  }

  /** The calls a poll makes: the next one only while the poll still waits for a reply. */
  function PollEvents(s: Session, calls: seq<Exchange>): seq<Event>
    decreases |calls|
  {
    if calls == [] || s.round.poll.NoPoll? then []
    else During(calls[0]) + PollEvents(Run(s, During(calls[0])), calls[1..])
  }

  lemma RunSnoc(s: Session, es: seq<Event>, e: Event)
    ensures Run(s, es + [e]) == Step(Run(s, es), e)
  {
    assert (es + [e])[..|es|] == es;
  }

  /** One more call of a poll that still waits: t is the session once it has ended. */
  lemma NextCall(s: Session, call: Exchange, rest: seq<Exchange>) returns (t: Session)
    requires !s.round.poll.NoPoll?
    ensures t == Step(Run(s, Pushes(call.pushed)), Ending(call))
    ensures Run(s, PollEvents(s, [call] + rest)) == Run(t, PollEvents(t, rest))
    ensures t.round.poll.NoPoll? ==> Run(s, PollEvents(s, [call] + rest)) == t
  {
    assert ([call] + rest)[1..] == rest;
    RunSnoc(s, Pushes(call.pushed), Ending(call));
    t := Run(s, During(call));
    RunConcat(s, During(call), PollEvents(t, rest));
  }

  lemma PushesKeepThePoll(s: Session, frames: seq<Json>)
    ensures Run(s, Pushes(frames)).round == s.round
  {
    if frames != [] {
      RunSnoc(s, Pushes(frames[..|frames| - 1]), Notify(frames[|frames| - 1]));
    }
  }

  class KodiSession {
    var np: NowPlaying
    var volume: int
    var muted: bool
    var stopCount: nat
    var identityFromNotification: bool
    var needsImmediatePoll: bool
    var consecutivePollTimeouts: nat
    var appVersion: Option<Version>
    ghost var announced: Snap
    ghost var events: nat
    ghost var alive: bool
    ghost var round: Round

    ghost function Now(): Snap
      reads this
    {
      Snap(np, volume, muted)
    }

    ghost function View(): Session
      reads this
    {
      Session(Now(), announced, events, Marks(stopCount, identityFromNotification, needsImmediatePoll,
                                              consecutivePollTimeouts, alive, appVersion), round)
    }

    constructor ()
      ensures View() == FRESH
    {
      np, volume, muted := NOTHING_PLAYING, 0, false;
      stopCount, identityFromNotification, needsImmediatePoll, consecutivePollTimeouts := 0, false, false, 0;
      appVersion := None;
      events := 0;
      announced, alive, round := Snap(NOTHING_PLAYING, 0, false), true, Round(NoPoll, false, false);
    }

    /** Publishes the event that makes the screens read the snapshot. */
    method Publish()
      modifies this`announced, this`events
      ensures announced == Now() && events == old(events) + 1
    {
      announced, events := Now(), events + 1;
    }

    method OnStop() returns (changed: bool)
      modifies this`np, this`stopCount, this`identityFromNotification
      ensures View() == old(View()).(now := NotedSnap(old(Now()), Stop), marks := NotedMarks(old(View()).marks, Stop))
      ensures changed == Announces(old(Now()), Stop)
    {
      changed := false;
      stopCount := stopCount + 1;
      if np.progress.playback != Inactive || np.id.title != "" {
        np := NOTHING_PLAYING;
        changed := true;
      }
      identityFromNotification := false;
    }

    method OnPlayer(item: Option<Json>, speed: Option<int>, begins: bool)
      modifies this`np, this`identityFromNotification, this`needsImmediatePoll
      ensures var n := Player(item, speed, begins);
              View() == old(View()).(now := NotedSnap(old(Now()), n), marks := NotedMarks(old(View()).marks, n))
    {
      if item.Some? {
        if begins {
          np := np.(id := NO_ITEM);
        }
        var id := ApplyItemFields(item.value, np.id);
        np := np.(id := id);
        identityFromNotification := true;
      }
      if speed.Some? {
        np := np.(progress := np.progress.(speed := speed.value));
      }
      np := np.(progress := np.progress.(playback := PlaybackFromSpeed(np.progress.speed)));
      needsImmediatePoll := true;
    }

    method OnVolume(newVolume: Option<int>, newMuted: Option<bool>) returns (changed: bool)
      modifies this`volume, this`muted
      ensures var n := Volume(newVolume, newMuted);
              View() == old(View()).(now := NotedSnap(old(Now()), n)) && changed == Announces(old(Now()), n)
    {
      changed := false;
      if newVolume.Some? {
        volume := newVolume.value;
        changed := true;
      }
      if newMuted.Some? {
        muted := newMuted.value;
        changed := true;
      }
    }

    method HandleNotification(frame: Json)
      modifies this
      ensures View() == Step(old(View()), Notify(frame))
    {
      var note := Decode(frame);
      var changed := false;
      match note {
        case Volume(v, m) => changed := OnVolume(v, m);
        case Stop => changed := OnStop();
        case Player(item, speed, begins) => {
          OnPlayer(item, speed, begins);
          changed := true;
        }
        case Nothing => {}
      }
      if changed {
        Publish();
      }
    }

    /** Handles what is pushed while a call waits. */
    method HandlePushed(frames: seq<Json>)
      modifies this
      ensures View() == Run(old(View()), Pushes(frames))
      ensures round == old(round)
    {
      var i := 0;
      while i < |frames|
        invariant i <= |frames|
        invariant View() == Run(old(View()), Pushes(frames[..i]))
      {
        HandleNotification(frames[i]);
        assert frames[..i + 1][..i] == frames[..i];
        RunSnoc(old(View()), Pushes(frames[..i]), Notify(frames[i]));
        i := i + 1;
      }
      assert frames[..i] == frames;
      PushesKeepThePoll(old(View()), frames);
    }

    /** The poll returns. A first poll is followed by SetState, whose event makes the screens read the
        snapshot too; it is taken as part of the same step. */
    method EndPoll(changed: bool, first: bool, ok: bool)
      requires changed == round.changed && first == round.priming
      modifies this`announced, this`events, this`alive, this`round
      ensures View() == Finish(old(View()), ok)
    {
      if changed || first {
        Publish();
      }
      alive := ok;
      round := Round(NoPoll, false, false);
    }

    /** A call of the poll ended without a reply. */
    method CallFailed(timedOut: bool, first: bool, changed: bool) returns (ok: bool)
      requires changed == round.changed && first == round.priming && !round.poll.NoPoll?
      modifies this
      ensures View() == Step(old(View()), Fails(timedOut)) && ok == alive
    {
      if first || !timedOut {
        ok := false;
      } else {
        consecutivePollTimeouts := consecutivePollTimeouts + 1;
        ok := consecutivePollTimeouts < MAX_TOLERATED_POLL_TIMEOUTS;
      }
      EndPoll(changed, first, ok);
    }

    method ReadVolume(reply: Json) returns (changed: bool)
      modifies this`volume, this`muted
      ensures Now() == AppSnap(old(Now()), reply) && changed == (Now() != old(Now()))
    {
      changed := false;
      var result := ObjectOf(Field(reply, "result"));
      if result.Some? {
        var v := IntOf(Field(result.value, "volume"));
        if v.Some? {
          var newVolume := ClampVolume(v.value);
          if newVolume != volume {
            volume := newVolume;
            changed := true;
          }
        }
        var m := BoolOf(Field(result.value, "muted"));
        if m.Some? && m.value != muted {
          muted := m.value;
          changed := true;
        }
      }
    }

    method ReadVersion(reply: Json)
      modifies this`appVersion
      ensures appVersion == if VersionIn(reply).Some? then VersionIn(reply) else old(appVersion)
    {
      var result := ObjectOf(Field(reply, "result"));
      if result.Some? {
        var version := ObjectOf(Field(result.value, "version"));
        if version.Some? {
          appVersion := Some(Version(GetInt(version.value, "major", 0), GetInt(version.value, "minor", 0)));
        }
      }
    }

    method ReadApp(reply: Json) returns (changed: bool)
      requires round.poll.AwaitApp? && !round.changed
      modifies this
      ensures View() == Step(old(View()), Reply(reply)) && changed == round.changed
    {
      consecutivePollTimeouts := 0;
      changed := ReadVolume(reply);
      ReadVersion(reply);
      round := Round(AwaitPlayers, changed, round.priming);
    }

    method BlankUnlessBlank(alreadyChanged: bool) returns (changed: bool)
      modifies this`np
      ensures np == Blanked(old(np)) && changed == (alreadyChanged || np != old(np))
    {
      changed := alreadyChanged;
      if np.progress.playback != Inactive || np.id.title != "" {
        np := NOTHING_PLAYING;
        changed := true;
      }
    }

    /** Reads who is playing. `done`: the poll ends here. */
    method ReadPlayers(reply: Json, first: bool, alreadyChanged: bool) returns (done: bool)
      requires round.poll.AwaitPlayers? && first == round.priming && alreadyChanged == round.changed
      modifies this
      ensures View() == Step(old(View()), Reply(reply)) && done == round.poll.NoPoll?
      ensures done ==> alive
      ensures !done ==> round == Round(AwaitProps(stopCount), alreadyChanged, first)
    {
      var players := Or(ArrayOf(Field(reply, "result")), []);
      if players == [] {
        var changed := BlankUnlessBlank(alreadyChanged);
        identityFromNotification := false;
        round := round.(changed := changed);
        EndPoll(changed, first, true);
        return true;
      }
      if ToInt32(GetInt(players[0], "playerid", -1)) < 0 {
        EndPoll(alreadyChanged, first, true);
        return true;
      }
      round := round.(poll := AwaitProps(stopCount));
      done := false;
    }

    method ReadProps(props: Json) returns (progress: Progress)
      ensures progress == WithProps(np, props).progress
    {
      progress := np.progress;
      var result := ObjectOf(Field(props, "result"));
      if result.Some? {
        var speed := ClampSpeed(GetInt(result.value, "speed", progress.speed));
        progress := progress.(speed := speed, playback := PlaybackFromSpeed(speed));
        progress := progress.(percent := GetReal(result.value, "percentage", progress.percent));
        progress := progress.(positionMs := MillisFromTimeObject(Or(Field(result.value, "time"), JObj(map[]))));
        progress := progress.(durationMs := MillisFromTimeObject(Or(Field(result.value, "totaltime"), JObj(map[]))));
        progress := progress.(canSeek := GetBool(result.value, "canseek", progress.canSeek));
      }
    }

    /** GetItem's identity is used only until a notification supplies one. */
    method ReadPlayer(props: Json, item: Json)
      modifies this`np
      ensures np == Polled(old(np), props, item, identityFromNotification)
    {
      var progress := ReadProps(props);
      np := np.(progress := progress);
      if !identityFromNotification {
        var found := ItemIn(item);
        if found.Some? {
          var id := ApplyItemFields(found.value, np.id);
          np := np.(id := id);
        }
      }
    }

    method TakeReplies(props: Json, item: Json, alreadyChanged: bool) returns (changed: bool)
      requires alreadyChanged == round.changed
      modifies this`np, this`round
      ensures View() == SetNow(old(View()), old(Now()).(np := Polled(old(np), props, item, identityFromNotification)))
      ensures changed == round.changed && round.priming == old(round.priming)
    {
      var before := np;
      ReadPlayer(props, item);
      changed := alreadyChanged || np != before;
      round := round.(changed := changed);
    }

    /** Merges the player's properties and its item, unless a stop was handled since it was picked. */
    method Merge(stopsBefore: nat, props: Json, item: Json, first: bool, alreadyChanged: bool)
      requires round == Round(AwaitItem(stopsBefore, props), alreadyChanged, first)
      modifies this
      ensures View() == OnItem(old(View()), stopsBefore, props, item) && round.poll.NoPoll? && alive
    {
      if stopCount != stopsBefore {
        needsImmediatePoll := true;
        EndPoll(alreadyChanged, first, true);
        return;
      }
      var changed := TakeReplies(props, item, alreadyChanged);
      EndPoll(changed, first, true);
    }

    /** A whole poll, call by call; `first` is the one that proves a new connection. */
    method ReconcilePoll(first: bool, app: Exchange, players: Exchange, props: Exchange, item: Exchange)
      returns (ok: bool)
      requires round == Round(AwaitApp, false, first)
      modifies this
      ensures View() == Run(old(View()), PollEvents(old(View()), [app] + ([players] + ([props] + [item]))))
      ensures round.poll.NoPoll? && ok == alive
    {
      ghost var t := NextCall(View(), app, [players] + ([props] + [item]));
      HandlePushed(app.pushed);
      if app.reply.None? {
        ok := CallFailed(app.timedOut, first, false);
        assert View() == t;
        return;
      }
      var changed := ReadApp(app.reply.value);
      assert View() == t;
      ok := PollPlayers(first, changed, players, props, item);
    }

    method PollPlayers(first: bool, changed: bool, players: Exchange, props: Exchange, item: Exchange)
      returns (ok: bool)
      requires round == Round(AwaitPlayers, changed, first)
      modifies this
      ensures View() == Run(old(View()), PollEvents(old(View()), [players] + ([props] + [item])))
      ensures round.poll.NoPoll? && ok == alive
    {
      ghost var t := NextCall(View(), players, [props] + [item]);
      HandlePushed(players.pushed);
      if players.reply.None? {
        ok := CallFailed(players.timedOut, first, changed);
        assert View() == t;
        return;
      }
      var done := ReadPlayers(players.reply.value, first, changed);
      assert View() == t;
      if done {
        return true;
      }
      ok := PollPlayer(first, changed, stopCount, props, item);
    }

    /** The properties are held until the item arrives. */
    ghost method HoldProps(stopsBefore: nat, props: Json)
      requires round.poll == AwaitProps(stopsBefore)
      modifies this`round
      ensures View() == Step(old(View()), Reply(props))
      ensures round == old(round).(poll := AwaitItem(stopsBefore, props))
    {
      round := round.(poll := AwaitItem(stopsBefore, props));
    }

    method PollPlayer(first: bool, changed: bool, stopsBefore: nat, props: Exchange, item: Exchange)
      returns (ok: bool)
      requires round == Round(AwaitProps(stopsBefore), changed, first)
      modifies this
      ensures View() == Run(old(View()), PollEvents(old(View()), [props] + [item]))
      ensures round.poll.NoPoll? && ok == alive
    {
      ghost var t := NextCall(View(), props, [item]);
      HandlePushed(props.pushed);
      if props.reply.None? {
        ok := CallFailed(props.timedOut, first, changed);
        assert View() == t;
        return;
      }
      HoldProps(stopsBefore, props.reply.value);
      assert View() == t;
      ok := PollItem(first, changed, stopsBefore, props.reply.value, item);
    }

    method PollItem(first: bool, changed: bool, stopsBefore: nat, props: Json, item: Exchange) returns (ok: bool)
      requires round == Round(AwaitItem(stopsBefore, props), changed, first)
      modifies this
      ensures View() == Run(old(View()), PollEvents(old(View()), [item]))
      ensures round.poll.NoPoll? && ok == alive
    {
      ghost var t := NextCall(View(), item, []);
      assert [item] + [] == [item];
      HandlePushed(item.pushed);
      if item.reply.None? {
        ok := CallFailed(item.timedOut, first, changed);
        return;
      }
      Merge(stopsBefore, props, item.reply.value, first, changed);
      ok := true;
    }

    /** A new connection starts from nothing and lets its first poll fill the snapshot; one that fails to
        connect, or is stopped as it does, changes nothing. */
    method ConnectAndPrime(connected: bool, stop: bool, app: Exchange, players: Exchange, props: Exchange, item: Exchange)
      returns (ok: bool)
      requires round.poll.NoPoll?
      modifies this
      ensures connected && !stop ==>
                (View() == Run(Step(old(View()), Connect),
                               PollEvents(Step(old(View()), Connect), [app] + ([players] + ([props] + [item]))))
                 && ok == alive)
      ensures !connected || stop ==> View() == old(View()) && !ok
      ensures round.poll.NoPoll?
    {
      if !connected || stop {
        return false;
      }
      np := NOTHING_PLAYING;
      identityFromNotification := false;
      round := Round(AwaitApp, false, true);
      ok := ReconcilePoll(true, app, players, props, item);
    }
  }
}
