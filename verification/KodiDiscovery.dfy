/** Choosing the Kodi to connect to among the answers of an mDNS browse (src/core/kodi_client.cpp:
    DeduplicateInstances, ResolveTarget; src/core/host_validation.h). A char is a byte. */
module KodiDiscovery {
  import opened Wrappers

  const DEFAULT_PORT := 9090

  /** One answer; `uuid` is the TXT entry of that name. */
  datatype Service = Service(name: string, hostname: string, address: string, port: nat, uuid: Option<string>)

  datatype Target = Target(host: string, port: nat)

  // ---- Keys ----

  function Decimal(n: nat): (d: string)
    ensures d != "" && forall i :: 0 <= i < |d| ==> '0' <= d[i] <= '9'
  {
    var digit := [('0' as int + n % 10) as char];
    if n < 10 then digit else Decimal(n / 10) + digit
  }

  function Value(d: string): int {
    if d == "" then 0 else Value(d[..|d| - 1]) * 10 + (d[|d| - 1] as int - '0' as int)
  }

  lemma {:induction false} DecimalValue(n: nat)
    ensures Value(Decimal(n)) == n
  {
    var d := Decimal(n);
    if n < 10 {
      assert d[..|d| - 1] == "";
    } else {
      DecimalValue(n / 10);
      assert d[..|d| - 1] == Decimal(n / 10);
    }
  }

  predicate HasUuid(s: Service) {
    s.uuid.Some? && s.uuid.value != ""
  }

  /** Which Kodi an answer is from: its uuid, else its name and port. */
  datatype Key = ByUuid(uuid: string) | ByName(name: string, port: nat)

  function KeyOf(s: Service): Key {
    if HasUuid(s) then ByUuid(s.uuid.value) else ByName(s.name, s.port)
  }

  /** The text the source keeps a key as. */
  function KeyText(k: Key): string {
    match k
    case ByUuid(uuid) => "u:" + uuid
    case ByName(name, port) => "n:" + name + ":" + Decimal(port)
  }

  lemma ColonSplits(a: string, b: string, c: string, d: string)
    requires a + ":" + b == c + ":" + d
    requires ':' !in b && ':' !in d
    ensures a == c && b == d
  {
    var s := a + ":" + b;
    assert s[|a|] == ':' && s[|c|] == ':';
    assert a == s[..|a|] && c == s[..|c|];
    assert b == s[|a| + 1..] && d == s[|c| + 1..];
  }

  /** Two keys have the same text only when they are the same key. */
  lemma KeyTextIsInjective(j: Key, k: Key)
    requires KeyText(j) == KeyText(k)
    ensures j == k
  {
    assert KeyText(j)[0] == KeyText(k)[0];
    if j.ByUuid? {
      assert j.uuid == KeyText(j)[2..] && k.uuid == KeyText(k)[2..];
    } else {
      ColonSplits("n:" + j.name, Decimal(j.port), "n:" + k.name, Decimal(k.port));
      assert j.name == ("n:" + j.name)[2..] && k.name == ("n:" + k.name)[2..];
      DecimalValue(j.port);
      DecimalValue(k.port);
    }
  }

  // ---- One entry per instance ----

  /** 0 without an address, 1 for IPv6, 2 for IPv4. */
  function Rank(s: Service): nat {
    if s.address == "" then 0 else if ':' in s.address then 1 else 2
  }

  function Find(unique: seq<Service>, key: Key): Option<nat> {
    if unique == [] then None
    else
      var n := |unique| - 1;
      var earlier := Find(unique[..n], key);
      if earlier.Some? then earlier else if KeyOf(unique[n]) == key then Some(n) else None
  }

  function Insert(unique: seq<Service>, s: Service): seq<Service> {
    match Find(unique, KeyOf(s))
    case None => unique + [s]
    case Some(i) => if i < |unique| && Rank(s) > Rank(unique[i]) then unique[i := s] else unique
  }

  function Deduped(services: seq<Service>): seq<Service> {
    if services == [] then []
    else Insert(Deduped(services[..|services| - 1]), services[|services| - 1])
  }

  lemma {:induction false} FindFinds(unique: seq<Service>, key: Key)
    ensures match Find(unique, key)
            case Some(i) => i < |unique| && KeyOf(unique[i]) == key
            case None => forall i :: 0 <= i < |unique| ==> KeyOf(unique[i]) != key
  {
    if unique != [] {
      FindFinds(unique[..|unique| - 1], key);
    }
  }

  predicate DistinctKeys(unique: seq<Service>) {
    forall i, j :: 0 <= i < j < |unique| ==> KeyOf(unique[i]) != KeyOf(unique[j])
  }

  /** s is the first answer of the best rank among those of its instance. */
  ghost predicate IsFirstBest(services: seq<Service>, s: Service) {
    exists i :: 0 <= i < |services| && IsFirstBestAt(services, s, i)
  }

  predicate IsFirstBestAt(services: seq<Service>, s: Service, i: nat)
    requires i < |services|
  {
    && services[i] == s
    && forall j :: 0 <= j < |services| && KeyOf(services[j]) == KeyOf(s) ==>
         Rank(services[j]) <= Rank(s) && (j < i ==> Rank(services[j]) < Rank(s))
  }

  ghost predicate Listed(unique: seq<Service>, key: Key) {
    exists i :: 0 <= i < |unique| && KeyOf(unique[i]) == key
  }

  /** One entry per instance that answered, each the first of the best rank. */
  ghost predicate IsDedup(services: seq<Service>, unique: seq<Service>) {
    && DistinctKeys(unique)
    && (forall i :: 0 <= i < |unique| ==> IsFirstBest(services, unique[i]))
    && (forall j :: 0 <= j < |services| ==> Listed(unique, KeyOf(services[j])))
  }

  lemma FirstBestKept(services: seq<Service>, s: Service, u: Service)
    requires IsFirstBest(services, u)
    requires KeyOf(s) == KeyOf(u) ==> Rank(s) <= Rank(u)
    ensures IsFirstBest(services + [s], u)
  {
    var i :| 0 <= i < |services| && IsFirstBestAt(services, u, i);
    assert IsFirstBestAt(services + [s], u, i);
  }

  lemma NewFirstBest(services: seq<Service>, s: Service)
    requires forall j :: 0 <= j < |services| && KeyOf(services[j]) == KeyOf(s) ==> Rank(services[j]) < Rank(s)
    ensures IsFirstBest(services + [s], s)
  {
    assert IsFirstBestAt(services + [s], s, |services|);
  }

  lemma InsertKeeps(services: seq<Service>, unique: seq<Service>, s: Service)
    requires IsDedup(services, unique)
    ensures IsDedup(services + [s], Insert(unique, s))
  {
    FindFinds(unique, KeyOf(s));
    var more := Insert(unique, s);
    match Find(unique, KeyOf(s)) {
      case None => {
        assert !Listed(unique, KeyOf(s));
        NewFirstBest(services, s);
        assert more[|unique|] == s;
      }
      case Some(i) => {
        assert IsFirstBest(services, unique[i]);
        if Rank(s) > Rank(unique[i]) {
          NewFirstBest(services, s);
        }
        assert more[i] == if Rank(s) > Rank(unique[i]) then s else unique[i];
      }
    }
    InsertLists(services, unique, s);
    forall k | 0 <= k < |more|
      ensures IsFirstBest(services + [s], more[k])
    {
      if k < |unique| && more[k] == unique[k] {
        FirstBestKept(services, s, unique[k]);
      }
    }
  }

  lemma InsertLists(services: seq<Service>, unique: seq<Service>, s: Service)
    requires forall j :: 0 <= j < |services| ==> Listed(unique, KeyOf(services[j]))
    ensures forall j :: 0 <= j < |services + [s]| ==> Listed(Insert(unique, s), KeyOf((services + [s])[j]))
  {
    FindFinds(unique, KeyOf(s));
    var more := Insert(unique, s);
    forall key | Listed(unique, key)
      ensures Listed(more, key)
    {
      var i :| 0 <= i < |unique| && KeyOf(unique[i]) == key;
      assert KeyOf(more[i]) == key;
    }
    assert Listed(more, KeyOf(s)) by {
      match Find(unique, KeyOf(s))
      case None => assert more[|unique|] == s;
      case Some(i) => assert KeyOf(more[i]) == KeyOf(s);
    }
  }

  /** Deduplication keeps exactly one answer per instance, of the best rank. */
  lemma {:induction false} DedupKeepsTheBest(services: seq<Service>)
    ensures IsDedup(services, Deduped(services))
  {
    if services == [] {
      NothingToDedup();
    } else {
      var n := |services| - 1;
      assert services == services[..n] + [services[n]];
      DedupKeepsTheBest(services[..n]);
      DedupSnoc(services[..n], services[n]);
    }
  }

  lemma NothingToDedup()
    ensures IsDedup([], Deduped([]))
  {
  }

  lemma DedupSnoc(services: seq<Service>, s: Service)
    requires IsDedup(services, Deduped(services))
    ensures IsDedup(services + [s], Deduped(services + [s]))
  {
    InsertKeeps(services, Deduped(services), s);
  }

  predicate HeardBeforeAt(services: seq<Service>, j: Key, k: Key, m: nat)
    requires m < |services|
  {
    KeyOf(services[m]) == j && forall n :: 0 <= n <= m ==> KeyOf(services[n]) != k
  }

  /** Instance j answered before k first did. */
  ghost predicate HeardBefore(services: seq<Service>, j: Key, k: Key) {
    exists m :: 0 <= m < |services| && HeardBeforeAt(services, j, k, m)
  }

  ghost predicate InOrderHeard(services: seq<Service>, unique: seq<Service>) {
    forall i, j :: 0 <= i < j < |unique| ==> HeardBefore(services, KeyOf(unique[i]), KeyOf(unique[j]))
  }

  lemma HeardStill(services: seq<Service>, j: Key, k: Key, s: Service)
    requires HeardBefore(services, j, k)
    ensures HeardBefore(services + [s], j, k)
  {
    var m :| 0 <= m < |services| && HeardBeforeAt(services, j, k, m);
    assert HeardBeforeAt(services + [s], j, k, m);
  }

  lemma HeardNow(services: seq<Service>, u: Service, s: Service)
    requires IsFirstBest(services, u)
    requires forall n :: 0 <= n < |services| ==> KeyOf(services[n]) != KeyOf(s)
    ensures HeardBefore(services + [s], KeyOf(u), KeyOf(s))
  {
    var m :| 0 <= m < |services| && IsFirstBestAt(services, u, m);
    assert HeardBeforeAt(services + [s], KeyOf(u), KeyOf(s), m);
  }

  lemma InsertInOrder(services: seq<Service>, unique: seq<Service>, s: Service)
    requires IsDedup(services, unique) && InOrderHeard(services, unique)
    ensures InOrderHeard(services + [s], Insert(unique, s))
  {
    FindFinds(unique, KeyOf(s));
    var more := Insert(unique, s);
    forall i, j | 0 <= i < j < |more|
      ensures HeardBefore(services + [s], KeyOf(more[i]), KeyOf(more[j]))
    {
      assert KeyOf(more[i]) == KeyOf(unique[i]);
      if j < |unique| {
        assert KeyOf(more[j]) == KeyOf(unique[j]);
        HeardStill(services, KeyOf(unique[i]), KeyOf(unique[j]), s);
      } else {
        NotHeardYet(services, unique, s);
        HeardNow(services, unique[i], s);
      }
    }
  }

  lemma NotHeardYet(services: seq<Service>, unique: seq<Service>, s: Service)
    requires IsDedup(services, unique) && Find(unique, KeyOf(s)).None?
    ensures forall n :: 0 <= n < |services| ==> KeyOf(services[n]) != KeyOf(s)
  {
    FindFinds(unique, KeyOf(s));
    forall n | 0 <= n < |services|
      ensures KeyOf(services[n]) != KeyOf(s)
    {
      assert Listed(unique, KeyOf(services[n]));
    }
  }

  /** Instances are listed in the order in which they first answered. */
  lemma {:induction false} DedupKeepsTheOrder(services: seq<Service>)
    ensures InOrderHeard(services, Deduped(services))
  {
    if services != [] {
      var n := |services| - 1;
      assert services == services[..n] + [services[n]];
      DedupKeepsTheOrder(services[..n]);
      DedupKeepsTheBest(services[..n]);
      InsertInOrder(services[..n], Deduped(services[..n]), services[n]);
    }
  }

  function IndexOf(indexByKey: map<string, nat>, text: string): Option<nat> {
    if text in indexByKey then Some(indexByKey[text]) else None
  }

  /** The index the source keeps beside the list: a key's text leads to its entry. */
  ghost predicate Indexes(indexByKey: map<string, nat>, unique: seq<Service>) {
    forall k: Key :: Find(unique, k) == IndexOf(indexByKey, KeyText(k))
  }

  lemma IndexAfterInsert(indexByKey: map<string, nat>, unique: seq<Service>, s: Service)
    requires Indexes(indexByKey, unique)
    ensures Find(unique, KeyOf(s)) == IndexOf(indexByKey, KeyText(KeyOf(s)))
    ensures var text := KeyText(KeyOf(s));
            (text in indexByKey ==> indexByKey[text] < |unique|)
    ensures var text := KeyText(KeyOf(s));
            Indexes(if text in indexByKey then indexByKey else indexByKey[text := |unique|], Insert(unique, s))
  {
    var text := KeyText(KeyOf(s));
    var index := if text in indexByKey then indexByKey else indexByKey[text := |unique|];
    assert Find(unique, KeyOf(s)) == IndexOf(indexByKey, text);
    FindFinds(unique, KeyOf(s));
    forall k: Key
      ensures Find(Insert(unique, s), k) == IndexOf(index, KeyText(k))
    {
      FindAfterInsert(unique, s, k);
      assert Find(unique, k) == IndexOf(indexByKey, KeyText(k));
      if KeyText(k) == text {
        KeyTextIsInjective(k, KeyOf(s));
      }
    }
  }

  /** One answer against the entries so far. */
  method AddAnswer(unique: seq<Service>, indexByKey: map<string, nat>, s: Service)
    returns (more: seq<Service>, index: map<string, nat>)
    requires Indexes(indexByKey, unique)
    ensures more == Insert(unique, s) && Indexes(index, more)
  {
    more, index := unique, indexByKey;
    var key := KeyText(KeyOf(s));
    IndexAfterInsert(indexByKey, unique, s);
    if key !in index {
      index := index[key := |more|];
      more := more + [s];
    } else if Rank(s) > Rank(more[index[key]]) {
      more := more[index[key] := s];
    }
  }

  method DeduplicateInstances(services: seq<Service>) returns (unique: seq<Service>)
    ensures unique == Deduped(services)
  {
    unique := [];
    var indexByKey: map<string, nat> := map[];
    var i := 0;
    while i < |services|
      invariant i <= |services|
      invariant unique == Deduped(services[..i])
      invariant Indexes(indexByKey, unique)
    {
      assert services[..i + 1][..i] == services[..i];
      unique, indexByKey := AddAnswer(unique, indexByKey, services[i]);
      i := i + 1;
    }
    assert services[..i] == services;
  }

  lemma {:induction false} FindReplaced(unique: seq<Service>, i: nat, s: Service, key: Key)
    requires i < |unique| && KeyOf(unique[i]) == KeyOf(s)
    ensures Find(unique[i := s], key) == Find(unique, key)
  {
    var n := |unique| - 1;
    if i < n {
      FindReplaced(unique[..n], i, s, key);
      assert unique[i := s][..n] == unique[..n][i := s];
    } else {
      assert unique[i := s][..n] == unique[..n];
    }
  }

  lemma FindAfterInsert(unique: seq<Service>, s: Service, key: Key)
    ensures Find(Insert(unique, s), key)
         == if key == KeyOf(s) && Find(unique, key).None? then Some(|unique|) else Find(unique, key)
  {
    FindFinds(unique, KeyOf(s));
    match Find(unique, KeyOf(s))
    case None => assert (unique + [s])[..|unique|] == unique;
    case Some(i) => if Rank(s) > Rank(unique[i]) { FindReplaced(unique, i, s, key); }
  }

  // ---- Choosing ----

  predicate IsUnsafe(c: char, allowColon: bool) {
    || c as int <= 0x20 || c as int >= 0x7F
    || c == '/' || c == '#' || c == '?' || c == '@'
    || (!allowColon && c == ':')
  }

  predicate HasUnsafeHostChars(value: string, allowColon: bool) {
    exists i :: 0 <= i < |value| && IsUnsafe(value[i], allowColon)
  }

  function HostOf(s: Service): string {
    if s.address != "" then s.address else s.hostname
  }

  predicate Connectable(s: Service) {
    HostOf(s) != "" && s.port != 0 && !HasUnsafeHostChars(HostOf(s), true)
  }

  function Filtered(services: seq<Service>): seq<Service> {
    if services == [] then []
    else
      var earlier := Filtered(services[..|services| - 1]);
      var s := services[|services| - 1];
      if Connectable(s) then earlier + [s] else earlier
  }

  function FindUuid(unique: seq<Service>, uuid: string): Option<Service> {
    if unique == [] then None
    else if unique[0].uuid == Some(uuid) then Some(unique[0])
    else FindUuid(unique[1..], uuid)
  }

  /** The selected instance, else the only one there is. */
  function Selected(unique: seq<Service>, uuid: string): Option<Service> {
    if uuid != "" then FindUuid(unique, uuid)
    else if |unique| == 1 then Some(unique[0])
    else None
  }

  /** The instance to connect to: the selected one, provided its address is known. */
  function Chosen(browsed: seq<Service>, uuid: string): Option<Service> {
    match Selected(Deduped(Filtered(browsed)), uuid)
    case Some(s) => if s.address == "" then None else Some(s)
    case None => None
  }

  function ManualHost(host: Option<string>): Option<string> {
    if host.Some? && host.value != "" && !HasUnsafeHostChars(host.value, false) then host else None
  }

  function TargetOf(browsed: seq<Service>, host: Option<string>, uuid: string): Option<Target> {
    match ManualHost(host)
    case Some(h) => Some(Target(h, DEFAULT_PORT))
    case None =>
      match Chosen(browsed, uuid)
      case Some(s) => Some(Target(s.address, s.port))
      case None => None
  }

  /** A host and port as a URL writes them, an IPv6 address in brackets. */
  function HostPortAuthority(host: string, port: nat): string {
    (if ':' in host && host[0] != '[' then "[" + host + "]" else host) + ":" + Decimal(port)
  }

  /** An instance as the settings page lists it. */
  datatype Instance = Instance(name: string, host: string, uuid: string)

  function Shown(s: Service): Instance {
    Instance(s.name, HostOf(s), if s.uuid.Some? then s.uuid.value else "")
  }

  /** What the settings page shows of the resolution. */
  datatype Resolution = Resolution(resolvedHost: string, configured: bool, selectedUuid: string,
                                   discovered: seq<Instance>)

  function ResolutionOf(browsed: seq<Service>, host: Option<string>, uuid: string): Resolution {
    match ManualHost(host)
    case Some(h) => Resolution(h, true, "", [])
    case None =>
      var unique := Deduped(Filtered(browsed));
      Resolution(match Chosen(browsed, uuid) {
                   case Some(s) => HostPortAuthority(s.address, s.port)
                   case None => ""
                 },
                 uuid != "", uuid,
                 seq(|unique|, i requires 0 <= i < |unique| => Shown(unique[i])))
  }

  /** The page lists every instance that could be connected to once, and shows a host exactly when there
      is a target. */
  lemma PageShowsTheTarget(browsed: seq<Service>, host: Option<string>, uuid: string)
    ensures var r := ResolutionOf(browsed, host, uuid);
            && (r.resolvedHost != "" <==> TargetOf(browsed, host, uuid).Some?)
            && (ManualHost(host).None? ==>
                  forall s :: s in browsed && Connectable(s) ==>
                    exists i :: 0 <= i < |r.discovered| && SameKeyAt(browsed, i, s))
  {
    DedupKeepsTheBest(Filtered(browsed));
    forall s | s in browsed && Connectable(s)
      ensures exists i :: 0 <= i < |Deduped(Filtered(browsed))| && SameKeyAt(browsed, i, s)
    {
      FilteredIsFilter(browsed, s);
      assert Listed(Deduped(Filtered(browsed)), KeyOf(s));
      var i :| 0 <= i < |Deduped(Filtered(browsed))| && KeyOf(Deduped(Filtered(browsed))[i]) == KeyOf(s);
      assert SameKeyAt(browsed, i, s);
    }
  }

  predicate SameKeyAt(browsed: seq<Service>, i: nat, s: Service) {
    i < |Deduped(Filtered(browsed))| && KeyOf(Deduped(Filtered(browsed))[i]) == KeyOf(s)
  }

  method HostIsUnsafe(value: string, allowColon: bool) returns (isUnsafe: bool)
    ensures isUnsafe == HasUnsafeHostChars(value, allowColon)
  {
    var i := 0;
    while i < |value|
      invariant i <= |value|
      invariant forall k :: 0 <= k < i ==> !IsUnsafe(value[k], allowColon)
    {
      if IsUnsafe(value[i], allowColon) {
        return true;
      }
      i := i + 1;
    }
    return false;
  }

  method RemoveUnusable(services: seq<Service>) returns (usable: seq<Service>)
    ensures usable == Filtered(services)
  {
    usable := [];
    var i := 0;
    while i < |services|
      invariant i <= |services| && usable == Filtered(services[..i])
    {
      var s := services[i];
      assert services[..i + 1][..i] == services[..i];
      var isUnsafe := HostIsUnsafe(HostOf(s), true);
      if !(HostOf(s) == "" || s.port == 0 || isUnsafe) {
        usable := usable + [s];
      }
      i := i + 1;
    }
    assert services[..i] == services;
  }

  /** The list as the settings page shows it. */
  method ListInstances(unique: seq<Service>) returns (discovered: seq<Instance>)
    ensures discovered == seq(|unique|, i requires 0 <= i < |unique| => Shown(unique[i]))
  {
    discovered := [];
    for i := 0 to |unique|
      invariant |discovered| == i && forall k :: 0 <= k < i ==> discovered[k] == Shown(unique[k])
    {
      discovered := discovered + [Instance(unique[i].name, HostOf(unique[i]),
                                           if unique[i].uuid.Some? then unique[i].uuid.value else "")];
    }
  }

  method Select(instances: seq<Service>, selected: string) returns (chosen: Option<Service>)
    ensures chosen == Selected(instances, selected)
  {
    chosen := None;
    if selected != "" {
      var i := 0;
      assert instances[0..] == instances;
      while i < |instances|
        invariant i <= |instances|
        invariant FindUuid(instances, selected) == FindUuid(instances[i..], selected)
      {
        if instances[i].uuid == Some(selected) {
          return Some(instances[i]);
        }
        i := i + 1;
      }
    } else if |instances| == 1 {
      chosen := Some(instances[0]);
    }
  }

  method ResolveTarget(browsed: seq<Service>, hostSetting: Option<string>, uuidSetting: Option<string>)
    returns (target: Option<Target>, page: Resolution)
    ensures var uuid := if uuidSetting.Some? then uuidSetting.value else "";
            && target == TargetOf(browsed, hostSetting, uuid)
            && page == ResolutionOf(browsed, hostSetting, uuid)
  {
    if hostSetting.Some? && hostSetting.value != "" {
      var isUnsafe := HostIsUnsafe(hostSetting.value, false);
      if !isUnsafe {
        return Some(Target(hostSetting.value, DEFAULT_PORT)), Resolution(hostSetting.value, true, "", []);
      }
    }
    var usable := RemoveUnusable(browsed);
    var instances := DeduplicateInstances(usable);
    var selected := if uuidSetting.Some? then uuidSetting.value else "";
    var chosen := Select(instances, selected);
    if chosen.Some? && chosen.value.address == "" {
      chosen := None;
    }
    var resolvedHost := "";
    target := None;
    if chosen.Some? {
      target := Some(Target(chosen.value.address, chosen.value.port));
      resolvedHost := HostPortAuthority(chosen.value.address, chosen.value.port);
    }
    var discovered := ListInstances(instances);
    page := Resolution(resolvedHost, selected != "", selected, discovered);
  }

  // ---- The order of the answers ----

  ghost predicate SameAnswers(a: seq<Service>, b: seq<Service>) {
    forall s :: s in a <==> s in b
  }

  lemma {:induction false} FilteredIsFilter(services: seq<Service>, s: Service)
    ensures s in Filtered(services) <==> s in services && Connectable(s)
  {
    if services != [] {
      var n := |services| - 1;
      FilteredIsFilter(services[..n], s);
      assert services == services[..n] + [services[n]];
    }
  }

  /** An entry of one deduplication has its counterpart, of the same instance and rank, in the other. */
  lemma Counterpart(a: seq<Service>, b: seq<Service>, ua: seq<Service>, ub: seq<Service>, i: nat) returns (j: nat)
    requires SameAnswers(a, b) && IsDedup(a, ua) && IsDedup(b, ub) && i < |ua|
    ensures j < |ub| && KeyOf(ub[j]) == KeyOf(ua[i]) && Rank(ub[j]) == Rank(ua[i])
  {
    assert IsFirstBest(a, ua[i]);
    var x :| 0 <= x < |a| && IsFirstBestAt(a, ua[i], x);
    assert a[x] in b;
    var y :| 0 <= y < |b| && b[y] == a[x];
    assert Listed(ub, KeyOf(b[y]));
    j :| 0 <= j < |ub| && KeyOf(ub[j]) == KeyOf(b[y]);
    assert IsFirstBest(b, ub[j]);
    var z :| 0 <= z < |b| && IsFirstBestAt(b, ub[j], z);
    assert b[z] in a;
    var w :| 0 <= w < |a| && a[w] == b[z];
  }

  lemma {:induction false} FindUuidFinds(unique: seq<Service>, uuid: string)
    ensures match FindUuid(unique, uuid)
            case Some(s) => s in unique && s.uuid == Some(uuid)
            case None => forall i :: 0 <= i < |unique| ==> unique[i].uuid != Some(uuid)
  {
    if unique != [] {
      FindUuidFinds(unique[1..], uuid);
    }
  }

  lemma SelectedCounterpart(a: seq<Service>, b: seq<Service>, ua: seq<Service>, ub: seq<Service>, uuid: string)
    requires SameAnswers(a, b) && IsDedup(a, ua) && IsDedup(b, ub)
    requires Selected(ua, uuid).Some?
    ensures Selected(ub, uuid).Some?
    ensures KeyOf(Selected(ua, uuid).value) == KeyOf(Selected(ub, uuid).value)
    ensures Rank(Selected(ua, uuid).value) == Rank(Selected(ub, uuid).value)
  {
    var s := Selected(ua, uuid).value;
    FindUuidFinds(ua, uuid);
    FindUuidFinds(ub, uuid);
    var i :| 0 <= i < |ua| && ua[i] == s;
    var j := Counterpart(a, b, ua, ub, i);
    if uuid != "" {
      var t := Selected(ub, uuid).value;
      var k :| 0 <= k < |ub| && ub[k] == t;
      assert k == j;
    } else {
      OnlyOne(a, b, ua, ub);
    }
  }

  lemma OnlyOne(a: seq<Service>, b: seq<Service>, ua: seq<Service>, ub: seq<Service>)
    requires SameAnswers(a, b) && IsDedup(a, ua) && IsDedup(b, ub) && |ua| == 1
    ensures |ub| == 1
  {
    var first := Counterpart(a, b, ua, ub, 0);
    if |ub| > 1 {
      var x := Counterpart(b, a, ub, ua, 0);
      var y := Counterpart(b, a, ub, ua, 1);
    }
  }

  /** Whether there is a target, and which instance it is, does not depend on the order of the answers. */
  lemma ChoiceIgnoresOrder(a: seq<Service>, b: seq<Service>, uuid: string)
    requires SameAnswers(a, b)
    ensures Chosen(a, uuid).Some? <==> Chosen(b, uuid).Some?
    ensures Chosen(a, uuid).Some? ==> KeyOf(Chosen(a, uuid).value) == KeyOf(Chosen(b, uuid).value)
  {
    var fa, fb := Filtered(a), Filtered(b);
    forall s
      ensures s in fa <==> s in fb
    {
      FilteredIsFilter(a, s);
      FilteredIsFilter(b, s);
    }
    DedupKeepsTheBest(fa);
    DedupKeepsTheBest(fb);
    if Selected(Deduped(fa), uuid).Some? {
      SelectedCounterpart(fa, fb, Deduped(fa), Deduped(fb), uuid);
    }
    if Selected(Deduped(fb), uuid).Some? {
      SelectedCounterpart(fb, fa, Deduped(fb), Deduped(fa), uuid);
    }
  }

  /** x could be the answer connected to: usable, of the chosen instance and of its rank. */
  ghost predicate Candidate(browsed: seq<Service>, uuid: string, x: Service)
    requires Chosen(browsed, uuid).Some?
  {
    && x in browsed && Connectable(x)
    && KeyOf(x) == KeyOf(Chosen(browsed, uuid).value) && Rank(x) == Rank(Chosen(browsed, uuid).value)
  }

  predicate SameTarget(x: Service, y: Service) {
    x.address == y.address && x.port == y.port
  }

  lemma {:induction false} FindUuidIn(unique: seq<Service>, uuid: string)
    requires Selected(unique, uuid).Some?
    ensures Selected(unique, uuid).value in unique
  {
    FindUuidFinds(unique, uuid);
  }

  lemma ChosenIsBest(browsed: seq<Service>, uuid: string)
    requires Chosen(browsed, uuid).Some?
    ensures Candidate(browsed, uuid, Chosen(browsed, uuid).value)
    ensures IsFirstBest(Filtered(browsed), Chosen(browsed, uuid).value)
  {
    var f := Filtered(browsed);
    var s := Chosen(browsed, uuid).value;
    DedupKeepsTheBest(f);
    FindUuidIn(Deduped(f), uuid);
    assert IsFirstBest(f, s);
    FilteredIsFilter(browsed, s);
  }

  /** The target does not depend on the order when every candidate has the same address and port. */
  lemma AgreedAddressIgnoresOrder(a: seq<Service>, b: seq<Service>, uuid: string)
    requires SameAnswers(a, b) && Chosen(a, uuid).Some?
    requires forall x, y :: Candidate(a, uuid, x) && Candidate(a, uuid, y) ==> SameTarget(x, y)
    ensures TargetOf(a, None, uuid) == TargetOf(b, None, uuid)
  {
    ChoiceIgnoresOrder(a, b, uuid);
    ChosenIsBest(a, uuid);
    ChosenIsBest(b, uuid);
    ChosenRank(a, b, uuid);
    assert Candidate(a, uuid, Chosen(b, uuid).value);
  }

  lemma ChosenRank(a: seq<Service>, b: seq<Service>, uuid: string)
    requires SameAnswers(a, b) && Chosen(a, uuid).Some? && Chosen(b, uuid).Some?
    ensures Rank(Chosen(a, uuid).value) == Rank(Chosen(b, uuid).value)
  {
    var fa, fb := Filtered(a), Filtered(b);
    forall s
      ensures s in fa <==> s in fb
    {
      FilteredIsFilter(a, s);
      FilteredIsFilter(b, s);
    }
    DedupKeepsTheBest(fa);
    DedupKeepsTheBest(fb);
    SelectedCounterpart(fa, fb, Deduped(fa), Deduped(fb), uuid);
  }

  function KeptOf(s: Service): seq<Service> {
    if Connectable(s) then [s] else []
  }

  lemma Associative(a: seq<Service>, b: seq<Service>, c: seq<Service>)
    ensures a + (b + c) == a + b + c
  {
  }

  lemma ConcatSnoc(a: seq<Service>, b: seq<Service>, s: Service)
    requires Filtered(a + b) == Filtered(a) + Filtered(b)
    ensures Filtered(a + (b + [s])) == Filtered(a) + Filtered(b + [s])
  {
    Associative(a, b, [s]);
    Associative(Filtered(a), Filtered(b), KeptOf(s));
  }

  lemma {:induction false} FilteredConcat(a: seq<Service>, b: seq<Service>)
    ensures Filtered(a + b) == Filtered(a) + Filtered(b)
    decreases |b|
  {
    if b == [] {
      assert a + b == a;
    } else {
      var n := |b| - 1;
      FilteredConcat(a, b[..n]);
      ConcatSnoc(a, b[..n], b[n]);
      assert b[..n] + [b[n]] == b;
    }
  }

  lemma FilteredHead(x: Service, a: seq<Service>)
    requires Connectable(x)
    ensures Filtered([x] + a) == [x] + Filtered(a)
  {
    FilteredConcat([x], a);
    assert [x][..0] == [];
  }

  /** The answers with the i-th heard first. */
  function MovedFirst(a: seq<Service>, i: nat): (b: seq<Service>)
    requires i < |a|
    ensures multiset(b) == multiset(a)
  {
    assert a == a[..i] + [a[i]] + a[i + 1..];
    [a[i]] + (a[..i] + a[i + 1..])
  }

  lemma SameMultiset(a: seq<Service>, b: seq<Service>)
    requires multiset(a) == multiset(b)
    ensures SameAnswers(a, b)
  {
    forall s
      ensures s in a <==> s in b
    {
      assert s in a <==> s in multiset(a);
      assert s in b <==> s in multiset(b);
    }
  }

  /** Moved to the front of the answers, a candidate is the one connected to. */
  lemma CandidateHeardFirst(a: seq<Service>, uuid: string, i: nat)
    requires Chosen(a, uuid).Some? && i < |a| && Candidate(a, uuid, a[i])
    ensures Chosen(MovedFirst(a, i), uuid) == Some(a[i])
  {
    var b := MovedFirst(a, i);
    SameMultiset(a, b);
    ChoiceIgnoresOrder(a, b, uuid);
    ChosenRank(a, b, uuid);
    ChosenIsBest(b, uuid);
    FilteredHead(a[i], a[..i] + a[i + 1..]);
    var c := Chosen(b, uuid).value;
    var k :| 0 <= k < |Filtered(b)| && IsFirstBestAt(Filtered(b), c, k);
    assert Filtered(b)[0] == a[i];
  }

  /** Every reordering of the answers gives the same target. */
  ghost predicate TargetIgnoresOrder(a: seq<Service>, uuid: string) {
    forall b: seq<Service> :: multiset(b) == multiset(a) ==> TargetOf(b, None, uuid) == TargetOf(a, None, uuid)
  }

  /** The target is the same for every order of the answers exactly when all candidates share one address
      and port. */
  lemma TargetIgnoresOrderIff(a: seq<Service>, uuid: string)
    requires Chosen(a, uuid).Some?
    ensures TargetIgnoresOrder(a, uuid)
            <==> forall x, y :: Candidate(a, uuid, x) && Candidate(a, uuid, y) ==> SameTarget(x, y)
  {
    if forall x, y :: Candidate(a, uuid, x) && Candidate(a, uuid, y) ==> SameTarget(x, y) {
      forall b: seq<Service> | multiset(b) == multiset(a)
        ensures TargetOf(b, None, uuid) == TargetOf(a, None, uuid)
      {
        SameMultiset(a, b);
        AgreedAddressIgnoresOrder(a, b, uuid);
      }
    } else {
      var x, y :| Candidate(a, uuid, x) && Candidate(a, uuid, y) && !SameTarget(x, y);
      HeardFirstDecides(a, uuid, x);
      HeardFirstDecides(a, uuid, y);
    }
  }

  lemma HeardFirstDecides(a: seq<Service>, uuid: string, x: Service)
    requires Chosen(a, uuid).Some? && Candidate(a, uuid, x)
    ensures TargetIgnoresOrder(a, uuid) ==> TargetOf(a, None, uuid) == Some(Target(x.address, x.port))
  {
    var i :| 0 <= i < |a| && a[i] == x;
    CandidateHeardFirst(a, uuid, i);
    assert TargetIgnoresOrder(a, uuid) ==> TargetOf(MovedFirst(a, i), None, uuid) == TargetOf(a, None, uuid);
  }

  /** The address is not so determined: of two IPv4 answers of one instance, the one heard first is used. */
  lemma AddressFollowsOrder()
    ensures var s := Service("tv", "tv.local", "10.0.0.2", 9090, Some("id"));
            var t := s.(address := "10.0.0.3");
            && Chosen([s, t], "") == Some(s)
            && Chosen([t, s], "") == Some(t)
  {
    var s := Service("tv", "tv.local", "10.0.0.2", 9090, Some("id"));
    var t := s.(address := "10.0.0.3");
    FirstOfTwo(s, t);
    FirstOfTwo(t, s);
  }

  lemma FirstOfTwo(s: Service, t: Service)
    requires KeyOf(s) == KeyOf(t) && Rank(s) == Rank(t) == 2 && Connectable(s) && Connectable(t)
    ensures Chosen([s, t], "") == Some(s)
  {
    assert [s, t][..1] == [s] && [s][..0] == [];
    assert Filtered([s]) == [s] && Filtered([s, t]) == [s, t];
    assert Deduped([]) == [];
    assert Find([], KeyOf(s)) == None;
    assert Deduped([s]) == Insert([], s) == [s];
    assert Find([s], KeyOf(t)) == Some(0);
    assert Deduped([s, t]) == Insert([s], t) == [s];
  }

  // ---- The target, from the answers alone ----

  /** Printable text with none of the characters that end a URL's authority. */
  predicate IsSafeHost(host: string) {
    forall i :: 0 <= i < |host| ==> '!' <= host[i] <= '~' && host[i] !in "/#?@"
  }

  /** A host, its address or else its name, to connect to. */
  predicate Usable(s: Service) {
    s.port != 0 && if s.address != "" then IsSafeHost(s.address) else s.hostname != "" && IsSafeHost(s.hostname)
  }

  /** Two answers of one Kodi: the same uuid, or no uuid and the same name and port. */
  predicate SameKodi(s: Service, t: Service) {
    if s.uuid.Some? && s.uuid.value != "" then s.uuid == t.uuid
    else !(t.uuid.Some? && t.uuid.value != "") && s.name == t.name && s.port == t.port
  }

  /** An IPv4 address beats an IPv6 one, and either beats none. */
  predicate Beats(s: Service, t: Service) {
    s.address != "" && (t.address == "" || (':' !in s.address && ':' in t.address))
  }

  /** The i-th answer is the one to use for its Kodi: none usable beats it, and it beats every earlier one. */
  predicate IsBestAt(browsed: seq<Service>, i: nat)
    requires i < |browsed|
  {
    && Usable(browsed[i])
    && forall j :: 0 <= j < |browsed| && Usable(browsed[j]) && SameKodi(browsed[j], browsed[i]) ==>
         !Beats(browsed[j], browsed[i]) && (j < i ==> Beats(browsed[i], browsed[j]))
  }

  lemma SafeIff(host: string)
    ensures HasUnsafeHostChars(host, true) <==> !IsSafeHost(host)
    ensures HasUnsafeHostChars(host, false) <==> !IsSafeHost(host) || ':' in host
  {
    if !IsSafeHost(host) {
      var i :| 0 <= i < |host| && !('!' <= host[i] <= '~' && host[i] !in "/#?@");
      assert IsUnsafe(host[i], true) && IsUnsafe(host[i], false);
    }
    if ':' in host {
      var i :| 0 <= i < |host| && host[i] == ':';
      assert IsUnsafe(host[i], false);
    }
  }

  lemma UsableIff(s: Service)
    ensures Connectable(s) <==> Usable(s)
  {
    SafeIff(HostOf(s));
  }

  /** Where the usable answers stand among all of them, in order. */
  predicate Places(services: seq<Service>, f: seq<Service>, at: seq<nat>) {
    && |at| == |f|
    && (forall k :: 0 <= k < |at| ==> at[k] < |services| && f[k] == services[at[k]])
    && (forall k, l :: 0 <= k < l < |at| ==> at[k] < at[l])
    && (forall i :: 0 <= i < |services| && Connectable(services[i]) ==> i in at)
  }

  lemma {:induction false} FilteredAt(services: seq<Service>) returns (at: seq<nat>)
    ensures Places(services, Filtered(services), at)
  {
    at := [];
    if services != [] {
      var n := |services| - 1;
      at := FilteredAt(services[..n]);
      assert services == services[..n] + [services[n]];
      if Connectable(services[n]) {
        at := at + [n];
      } else {
        assert Filtered(services) == Filtered(services[..n]);
      }
    }
  }

  ghost predicate IsBest(browsed: seq<Service>, t: Service) {
    exists i :: 0 <= i < |browsed| && browsed[i] == t && IsBestAt(browsed, i)
  }

  lemma BestAmongAll(browsed: seq<Service>, t: Service)
    requires IsFirstBest(Filtered(browsed), t)
    ensures IsBest(browsed, t)
  {
    var at := FilteredAt(browsed);
    var f := Filtered(browsed);
    var k :| 0 <= k < |f| && IsFirstBestAt(f, t, k);
    FilteredIsFilter(browsed, t);
    UsableIff(t);
    forall j | 0 <= j < |browsed| && Usable(browsed[j]) && SameKodi(browsed[j], t)
      ensures !Beats(browsed[j], t) && (j < at[k] ==> Beats(t, browsed[j]))
    {
      UsableIff(browsed[j]);
    }
    assert browsed[at[k]] == t && IsBestAt(browsed, at[k]);
  }

  lemma BestAmongUsable(browsed: seq<Service>, t: Service)
    requires IsBest(browsed, t)
    ensures IsFirstBest(Filtered(browsed), t)
  {
    var at := FilteredAt(browsed);
    var f := Filtered(browsed);
    var i :| 0 <= i < |browsed| && browsed[i] == t && IsBestAt(browsed, i);
    UsableIff(t);
    var k :| 0 <= k < |at| && at[k] == i;
    forall l | 0 <= l < |f| && KeyOf(f[l]) == KeyOf(t)
      ensures Rank(f[l]) <= Rank(t) && (l < k ==> Rank(f[l]) < Rank(t))
    {
      FilteredIsFilter(browsed, f[l]);
      UsableIff(f[l]);
      assert f[l] == browsed[at[l]];
    }
    assert IsFirstBestAt(f, t, k);
  }

  /** Whether t is the instance to connect to, from the answers themselves: the best answer of its Kodi, with an
      address, and either of the selected uuid or, with none selected, of the only usable Kodi there is. */
  lemma ChosenIff(browsed: seq<Service>, uuid: string, t: Service)
    ensures Chosen(browsed, uuid) == Some(t)
            <==> && t.address != ""
                 && IsBest(browsed, t)
                 && (if uuid != "" then t.uuid == Some(uuid)
                     else forall s :: s in browsed && Usable(s) ==> SameKodi(s, t))
  {
    var f := Filtered(browsed);
    var unique := Deduped(f);
    DedupKeepsTheBest(f);
    assert IsFirstBest(f, t) <==> IsBest(browsed, t) by {
      if IsFirstBest(f, t) {
        BestAmongAll(browsed, t);
      }
      if IsBest(browsed, t) {
        BestAmongUsable(browsed, t);
      }
    }
    FindUuidFinds(unique, uuid);
    forall s
      ensures KeyOf(s) == KeyOf(t) <==> SameKodi(s, t)
      ensures s in f <==> s in browsed && Usable(s)
    {
      UsableIff(s);
      FilteredIsFilter(browsed, s);
    }
    if uuid == "" {
      OnlyEntryIff(f, unique, t);
    } else if t in unique && t.uuid == Some(uuid) {
      OneUuid(unique, uuid, t);
    }
  }

  lemma OneUuid(unique: seq<Service>, uuid: string, t: Service)
    requires DistinctKeys(unique) && uuid != "" && t in unique && t.uuid == Some(uuid)
    ensures FindUuid(unique, uuid) == Some(t)
  {
    FindUuidFinds(unique, uuid);
    var i :| 0 <= i < |unique| && unique[i] == t;
    assert unique[i].uuid == Some(uuid);
    var j :| 0 <= j < |unique| && unique[j] == FindUuid(unique, uuid).value;
    assert KeyOf(unique[i]) == KeyOf(unique[j]);
  }

  lemma OnlyEntryIff(f: seq<Service>, unique: seq<Service>, t: Service)
    requires IsDedup(f, unique)
    ensures unique == [t] <==> t in unique && forall s :: s in f ==> KeyOf(s) == KeyOf(t)
  {
    if unique == [t] {
      forall s | s in f
        ensures KeyOf(s) == KeyOf(t)
      {
        assert Listed(unique, KeyOf(s));
      }
    }
    if t in unique && forall s :: s in f ==> KeyOf(s) == KeyOf(t) {
      forall k | 0 <= k < |unique|
        ensures KeyOf(unique[k]) == KeyOf(t)
      {
        assert IsFirstBest(f, unique[k]);
      }
      assert |unique| > 1 ==> KeyOf(unique[0]) != KeyOf(unique[1]);
    }
  }

  /** A usable manual host wins, on Kodi's own port; else the target is the chosen instance. */
  lemma ManualHostWins(browsed: seq<Service>, host: Option<string>, uuid: string)
    ensures var manual := host.Some? && host.value != "" && IsSafeHost(host.value) && ':' !in host.value;
            && (manual ==> TargetOf(browsed, host, uuid) == Some(Target(host.value, 9090)))
            && (!manual && Chosen(browsed, uuid).None? ==> TargetOf(browsed, host, uuid).None?)
            && (!manual && Chosen(browsed, uuid).Some? ==>
                  TargetOf(browsed, host, uuid)
                  == Some(Target(Chosen(browsed, uuid).value.address, Chosen(browsed, uuid).value.port)))
  {
    if host.Some? {
      SafeIff(host.value);
    }
  }

  /** An authority reads back: the port after its last colon, and a host before it that holds a colon only in
      brackets. */
  lemma AuthorityReadsBack(host: string, port: nat) returns (shown: string, digits: string)
    ensures HostPortAuthority(host, port) == shown + ":" + digits
    ensures ':' !in digits && Value(digits) == port
    ensures shown == host || shown == "[" + host + "]"
    ensures ':' in shown <==> ':' in host
    ensures ':' in shown ==> shown[0] == '['
    ensures ':' !in host || host[0] == '[' ==> shown == host
  {
    shown := if ':' in host && host[0] != '[' then "[" + host + "]" else host;
    digits := Decimal(port);
    DecimalValue(port);
    assert ("[" + host + "]")[0] == '[';
  }
}
