/** The typed readers over Kodi's untrusted replies and the merge of an item into what is playing
    (src/core/kodi_json.cpp, src/core/kodi_json.h). A JSON text is modelled by its parsed value. */
module KodiJson {
  import opened Wrappers

  datatype Json =
    | JNull
    | JBool(b: bool)
    | JInt(i: int)
    | JFloat(f: real)
    | JStr(s: string)
    | JArr(items: seq<Json>)
    | JObj(fields: map<string, Json>)

  const MAX_VOLUME := 100
  const MAX_SPEED := 1000
  const MAX_TIME_FIELD := 1000000
  const MAX_SEASON_OR_EPISODE := 1000000

  function Clamp(x: int, low: int, high: int): (r: int)
    requires low <= high
    ensures low <= x <= high ==> r == x
    ensures x < low ==> r == low
    ensures x > high ==> r == high
  {
    if x < low then low else if x > high then high else x
  }

  /** A member of an object; None for anything that is not an object or lacks it. */
  function Field(j: Json, key: string): (member: Option<Json>)
    ensures member.Some? <==> j.JObj? && key in j.fields
    ensures member.Some? ==> j.fields[key] == member.value
  {
    if j.JObj? && key in j.fields then Some(j.fields[key]) else None
  }

  function IntOf(j: Option<Json>): (i: Option<int>)
    ensures i.Some? <==> j.Some? && j.value.JInt?
    ensures i.Some? ==> j == Some(JInt(i.value))
  {
    if j.Some? && j.value.JInt? then Some(j.value.i) else None
  }

  function BoolOf(j: Option<Json>): (b: Option<bool>)
    ensures b.Some? <==> j.Some? && j.value.JBool?
    ensures b.Some? ==> j == Some(JBool(b.value))
  {
    if j.Some? && j.value.JBool? then Some(j.value.b) else None
  }

  function StringOf(j: Option<Json>): (s: Option<string>)
    ensures s.Some? <==> j.Some? && j.value.JStr?
    ensures s.Some? ==> j == Some(JStr(s.value))
  {
    if j.Some? && j.value.JStr? then Some(j.value.s) else None
  }

  function ObjectOf(j: Option<Json>): (node: Option<Json>)
    ensures node.Some? <==> j.Some? && j.value.JObj?
    ensures node.Some? ==> j == node
  {
    if j.Some? && j.value.JObj? then j else None
  }

  function ArrayOf(j: Option<Json>): (items: Option<seq<Json>>)
    ensures items.Some? <==> j.Some? && j.value.JArr?
    ensures items.Some? ==> j == Some(JArr(items.value))
  {
    if j.Some? && j.value.JArr? then Some(j.value.items) else None
  }

  /** A member of what may be there. */
  function In(j: Option<Json>, key: string): Option<Json> {
    if j.Some? then Field(j.value, key) else None
  }

  function Or<T>(o: Option<T>, fallback: T): T {
    if o.Some? then o.value else fallback
  }

  function GetInt(j: Json, key: string, fallback: int): int {
    Or(IntOf(Field(j, key)), fallback)
  }

  function GetReal(j: Json, key: string, fallback: real): real {
    match Field(j, key)
    case Some(JInt(i)) => i as real
    case Some(JFloat(f)) => f
    case _ => fallback
  }

  function GetString(j: Json, key: string, fallback: string): string {
    Or(StringOf(Field(j, key)), fallback)
  }

  function GetBool(j: Json, key: string, fallback: bool): bool {
    Or(BoolOf(Field(j, key)), fallback)
  }

  function GetBoundedInt(j: Json, key: string, fallback: int, low: int, high: int): (r: int)
    requires low <= high
    ensures low <= r <= high
  {
    Clamp(GetInt(j, key, fallback), low, high)
  }

  function ClampVolume(v: int): (r: int)
    ensures r == (if v < 0 then 0 else if v <= MAX_VOLUME then v else MAX_VOLUME)
  {
    Clamp(v, 0, MAX_VOLUME)
  }

  function ClampSpeed(v: int): (r: int)
    ensures r == (if v < -MAX_SPEED then -MAX_SPEED else if v <= MAX_SPEED then v else MAX_SPEED)
  {
    Clamp(v, -MAX_SPEED, MAX_SPEED)
  }

  /** The narrowing of a 64-bit integer to int: the one of its range that differs by a multiple of 2 to the 32. */
  function ToInt32(i: int): (r: int)
    ensures -0x8000_0000 <= r < 0x8000_0000
    ensures (i - r) % 0x1_0000_0000 == 0
    ensures -0x8000_0000 <= i < 0x8000_0000 ==> r == i
  {
    var m := i % 0x1_0000_0000;
    if m >= 0x8000_0000 then m - 0x1_0000_0000 else m
  }

  /** What a time object says about one unit: none for anything but a whole number, at most a million. */
  function UnitsIn(t: Json, key: string): (n: int)
    ensures IntOf(Field(t, key)).None? ==> n == 0
    ensures IntOf(Field(t, key)).Some? ==>
              var said := IntOf(Field(t, key)).value;
              n == (if said < 0 then 0 else if said > 1_000_000 then 1_000_000 else said)
  {
    GetBoundedInt(t, key, 0, 0, MAX_TIME_FIELD)
  }

  /** A time object in milliseconds, well inside 64 bits whatever the reply says. */
  function MillisFromTimeObject(t: Json): (ms: int)
    ensures ms == 3_600_000 * UnitsIn(t, "hours") + 60_000 * UnitsIn(t, "minutes") + 1_000 * UnitsIn(t, "seconds")
                  + UnitsIn(t, "milliseconds")
    ensures 0 <= ms < 0x1_0000_0000_0000
  {
    (UnitsIn(t, "hours") * 3600 + UnitsIn(t, "minutes") * 60 + UnitsIn(t, "seconds")) * 1000 + UnitsIn(t, "milliseconds")
  }

  datatype PlaybackState = Inactive | Playing | Paused

  function PlaybackFromSpeed(speed: int): (p: PlaybackState)
    ensures p.Paused? <==> speed == 0
    ensures p.Playing? <==> speed != 0
  {
    if speed == 0 then Paused else Playing
  }

  /** The array a listing reply carries under `key`. */
  function ResultArray(parsed: Json, key: string): (items: Option<seq<Json>>)
    ensures Field(parsed, "result").None? ==> items.None?
    ensures Field(parsed, "result").Some? ==>
              (items.Some? <==> Field(Field(parsed, "result").value, key).Some?
                                && Field(Field(parsed, "result").value, key).value.JArr?)
    ensures items.Some? ==> Field(Field(parsed, "result").value, key) == Some(JArr(items.value))
  {
    match Field(parsed, "result")
    case Some(result) => ArrayOf(Field(result, key))
    case None => None
  }

  // ---- What is playing ----

  /** Which title is playing. */
  datatype Identity = Identity(title: string, showTitle: string, season: int, episode: int, mediaType: string)

  /** How it is playing. */
  datatype Progress = Progress(playback: PlaybackState, speed: int, percent: real, positionMs: int,
                               durationMs: int, canSeek: bool)

  datatype NowPlaying = NowPlaying(id: Identity, progress: Progress)

  const NO_ITEM := Identity("", "", -1, -1, "")
  const NOTHING_PLAYING := NowPlaying(NO_ITEM, Progress(Inactive, 0, 0.0, 0, 0, false))

  function NonEmpty(s: Option<string>): Option<string> {
    if s.Some? && s.value != "" then s else None
  }

  /** The member is a text, and not an empty one. */
  predicate HasText(item: Json, key: string) {
    item.JObj? && key in item.fields && item.fields[key].JStr? && item.fields[key].s != ""
  }

  // What an item says about each field, None for nothing usable.

  /** The title, or the label of an item that has none. */
  function TitleIn(item: Json): (title: Option<string>)
    ensures title.Some? <==> HasText(item, "title") || HasText(item, "label")
    ensures HasText(item, "title") ==> item.fields["title"] == JStr(title.value)
    ensures !HasText(item, "title") && HasText(item, "label") ==> item.fields["label"] == JStr(title.value)
  {
    var title := NonEmpty(StringOf(Field(item, "title")));
    if title.Some? then title else NonEmpty(StringOf(Field(item, "label")))
  }

  function ShowTitleIn(item: Json): (show: Option<string>)
    ensures show.Some? <==> HasText(item, "showtitle")
    ensures show.Some? ==> item.fields["showtitle"] == JStr(show.value)
  {
    NonEmpty(StringOf(Field(item, "showtitle")))
  }

  /** A whole number not below zero, cut at a million. */
  function NumberIn(item: Json, key: string): (n: Option<int>)
    ensures n.Some? <==> item.JObj? && key in item.fields && item.fields[key].JInt? && item.fields[key].i >= 0
    ensures n.Some? ==> n.value == if item.fields[key].i > 1_000_000 then 1_000_000 else item.fields[key].i
  {
    var n := GetBoundedInt(item, key, -1, -1, MAX_SEASON_OR_EPISODE);
    if n >= 0 then Some(n) else None
  }

  function SeasonIn(item: Json): (season: Option<int>)
    ensures season == NumberIn(item, "season")
  {
    NumberIn(item, "season")
  }

  function EpisodeIn(item: Json): (episode: Option<int>)
    ensures episode == NumberIn(item, "episode")
  {
    NumberIn(item, "episode")
  }

  /** Kodi's "unknown" is no type. */
  function MediaTypeIn(item: Json): (mediaType: Option<string>)
    ensures mediaType.Some? <==> HasText(item, "type") && item.fields["type"] != JStr("unknown")
    ensures mediaType.Some? ==> item.fields["type"] == JStr(mediaType.value)
  {
    var t := NonEmpty(StringOf(Field(item, "type")));
    if t == Some("unknown") then None else t
  }

  /** An item overwrites the fields it says something usable about and leaves the others alone. */
  function Applied(item: Json, id: Identity): Identity {
    Identity(Or(TitleIn(item), id.title), Or(ShowTitleIn(item), id.showTitle), Or(SeasonIn(item), id.season),
             Or(EpisodeIn(item), id.episode), Or(MediaTypeIn(item), id.mediaType))
  }

  function AppliedAll(items: seq<Json>, id: Identity): Identity {
    if items == [] then id else Applied(items[|items| - 1], AppliedAll(items[..|items| - 1], id))
  }

  /** The latest usable value of a field over a sequence of items. */
  function Latest<T>(items: seq<Json>, usable: Json -> Option<T>, fallback: T): T {
    if items == [] then fallback
    else
      var here := usable(items[|items| - 1]);
      if here.Some? then here.value else Latest(items[..|items| - 1], usable, fallback)
  }

  /** Merging items one after another leaves in every field the latest usable value seen. */
  lemma {:induction false} MergeKeepsTheLatest(items: seq<Json>, id: Identity)
    ensures AppliedAll(items, id)
         == Identity(Latest(items, TitleIn, id.title), Latest(items, ShowTitleIn, id.showTitle),
                     Latest(items, SeasonIn, id.season), Latest(items, EpisodeIn, id.episode),
                     Latest(items, MediaTypeIn, id.mediaType))
  {
    if items != [] {
      MergeKeepsTheLatest(items[..|items| - 1], id);
    }
  }

  method UsableTitle(item: Json) returns (title: string)
    ensures title == Or(TitleIn(item), "")
    ensures title == "" <==> TitleIn(item).None?
  {
    title := GetString(item, "title", "");
    if title == "" {
      title := GetString(item, "label", "");
    }
  }

  method UsableMediaType(item: Json) returns (mediaType: string)
    ensures mediaType == Or(MediaTypeIn(item), "")
    ensures mediaType == "" <==> MediaTypeIn(item).None?
  {
    mediaType := "";
    var t := Field(item, "type");
    if t.Some? && t.value.JStr? {
      if t.value.s != "" && t.value.s != "unknown" {
        mediaType := t.value.s;
      }
    }
  }

  /** The merge as the source makes it, one field at a time. */
  method ApplyItemFields(item: Json, id: Identity) returns (merged: Identity)
    ensures merged == Applied(item, id)
  {
    merged := id;
    if !item.JObj? {
      return;
    }
    var title := UsableTitle(item);
    if title != "" {
      merged := merged.(title := title);
    }
    var showTitle := Field(item, "showtitle");
    if showTitle.Some? && showTitle.value.JStr? && showTitle.value.s != "" {
      merged := merged.(showTitle := showTitle.value.s);
    }
    var season := GetBoundedInt(item, "season", -1, -1, MAX_SEASON_OR_EPISODE);
    if season >= 0 {
      merged := merged.(season := season);
    }
    var episode := GetBoundedInt(item, "episode", -1, -1, MAX_SEASON_OR_EPISODE);
    if episode >= 0 {
      merged := merged.(episode := episode);
    }
    var mediaType := UsableMediaType(item);
    if mediaType != "" {
      merged := merged.(mediaType := mediaType);
    }
  }
}
