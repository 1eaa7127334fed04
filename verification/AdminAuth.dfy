/** The admin login throttle and its sessions (src/core/admin_auth_service.cpp).

    A login is two critical sections with the slow hash between them, so logins are modelled as
    the interleaving of those sections: `Begin` reserves an attempt, `Finish` settles one that
    was admitted, with the hash comparison's verdict free. Times are nanoseconds of a clock
    that never runs backwards. */
module AdminAuth {
  import opened Wrappers

  const SECOND := 1_000_000_000
  const MAX_FAILED_LOGIN_ATTEMPTS := 5
  const LOGIN_LOCKOUT := 60 * SECOND
  const SESSION_LIFETIME := 24 * 60 * 60 * SECOND

  type Token = seq<bv8>

  /** `inFlight` are the admitted attempts whose hash is not settled yet, numbered from 0; `clock` is the
      latest reading. */
  datatype State = State(
    failed: nat, lockedUntil: int, sessions: map<Token, int>, inFlight: set<nat>, begun: nat, clock: int)

  datatype Event =
    | Begin(now: int, charged: int)                              // Login up to the hash: two clock readings
    | Finish(attempt: nat, matches: bool, issued: Option<Token>, now: int)  // Login after the hash
    | Validate(token: Token, now: int)
    | Logout(token: Token)

  const FRESH := State(0, 0, map[], {}, 0, 0)

  function Swept(sessions: map<Token, int>, now: int): map<Token, int> {
    map t | t in sessions && now < sessions[t] :: sessions[t]
  }

  predicate Admitted(s: State, now: int) {
    now >= s.lockedUntil
  }

  function BeginStep(s: State, now: int, charged: int): State {
    if !Admitted(s, now) then s.(clock := charged)
    else
      State(s.failed + 1,
            if s.failed + 1 >= MAX_FAILED_LOGIN_ATTEMPTS then charged + LOGIN_LOCKOUT else s.lockedUntil,
            s.sessions, s.inFlight + {s.begun}, s.begun + 1, charged)
  }

  function FinishStep(s: State, attempt: nat, matches: bool, issued: Option<Token>, now: int): State {
    var t := s.(inFlight := s.inFlight - {attempt}, clock := now);
    if !matches then t
    else
      var cleared := t.(failed := 0, lockedUntil := 0, sessions := Swept(s.sessions, now));
      if issued.None? then cleared
      else cleared.(sessions := cleared.sessions[issued.value := now + SESSION_LIFETIME])
  }

  /** Whether a token is accepted, and the sessions left: an expired one is erased when it is asked about. */
  function ValidateResult(sessions: map<Token, int>, token: Token, now: int): (bool, map<Token, int>) {
    if token !in sessions then (false, sessions)
    else if now >= sessions[token] then (false, sessions - {token})
    else (true, sessions)
  }

  /** Readings of the clock never decrease; only an admitted attempt can be settled. */
  predicate Enabled(s: State, e: Event) {
    match e
    case Begin(now, charged) => s.clock <= now <= charged
    case Finish(attempt, _, _, now) => attempt in s.inFlight && s.clock <= now
    case Validate(_, now) => s.clock <= now
    case Logout(_) => true
  }

  function Apply(s: State, e: Event): State {
    if !Enabled(s, e) then s
    else
      match e
      case Begin(now, charged) => BeginStep(s, now, charged)
      case Finish(attempt, matches, issued, now) => FinishStep(s, attempt, matches, issued, now)
      case Validate(token, now) => s.(sessions := ValidateResult(s.sessions, token, now).1, clock := now)
      case Logout(token) => s.(sessions := s.sessions - {token})
  }

  function Run(s: State, events: seq<Event>): State {
    if events == [] then s else Apply(Run(s, events[..|events| - 1]), events[|events| - 1])
  }

  // ---- what the events alone say ----

  /** An attempt that was admitted: when it began, and when it was charged. */
  datatype Attempt = Attempt(began: int, charged: int)

  /** The record an observer keeps: the attempts admitted since the last successful login, the ones not
      settled, and every session issued and not logged out with the time it runs out. */
  datatype Past = Past(attempts: seq<Attempt>, open: set<nat>, begun: nat, clock: int, live: map<Token, int>)

  /** The rule: five attempts are free, every further one has to wait a minute from the charge of the last. */
  predicate Free(attempts: seq<Attempt>, now: int) {
    |attempts| < 5 || now >= attempts[|attempts| - 1].charged + 60_000_000_000
  }

  function Recorded(h: Past, e: Event): Past {
    match e
    case Begin(now, charged) =>
      if !(h.clock <= now <= charged) then h
      else if Free(h.attempts, now) then
        Past(h.attempts + [Attempt(now, charged)], h.open + {h.begun}, h.begun + 1, charged, h.live)
      else h.(clock := charged)
    case Finish(attempt, matches, issued, now) =>
      if !(attempt in h.open && h.clock <= now) then h
      else if !matches then h.(open := h.open - {attempt}, clock := now)
      else Past([], h.open - {attempt}, h.begun, now,
                if issued.Some? then h.live[issued.value := now + 86_400_000_000_000] else h.live)
    case Validate(_, now) => if h.clock <= now then h.(clock := now) else h
    case Logout(token) => h.(live := h.live - {token})
  }

  function PastOf(events: seq<Event>): Past {
    if events == [] then Past([], {}, 0, 0, map[])
    else Recorded(PastOf(events[..|events| - 1]), events[|events| - 1])
  }

  /** The counter and the lockout the service keeps are what the record calls for, and the sessions it holds
      are the live ones but for expired ones already gone. */
  ghost predicate Agrees(s: State, h: Past) {
    && s.failed == |h.attempts| && s.inFlight == h.open && s.begun == h.begun && s.clock == h.clock >= 0
    && s.lockedUntil == (if |h.attempts| >= 5 then h.attempts[|h.attempts| - 1].charged + LOGIN_LOCKOUT else 0)
    && (forall t :: t in s.sessions ==> t in h.live && s.sessions[t] == h.live[t])
    && (forall t :: t in h.live && t !in s.sessions ==> h.live[t] <= h.clock)
    && (forall a :: a in s.inFlight ==> a < s.begun)
  }

  lemma BeginAgrees(s: State, h: Past, now: int, charged: int)
    requires Agrees(s, h)
    ensures Agrees(Apply(s, Begin(now, charged)), Recorded(h, Begin(now, charged)))
  {
  }

  lemma AgreesStep(s: State, h: Past, e: Event)
    requires Agrees(s, h)
    ensures Agrees(Apply(s, e), Recorded(h, e))
  {
    if e.Begin? {
      BeginAgrees(s, h, e.now, e.charged);
    }
  }

  lemma {:induction false} RunAgrees(events: seq<Event>)
    ensures Agrees(Run(FRESH, events), PastOf(events))
    decreases |events|
  {
    if events != [] {
      RunAgrees(events[..|events| - 1]);
      AgreesStep(Run(FRESH, events[..|events| - 1]), PastOf(events[..|events| - 1]), events[|events| - 1]);
    }
  }

  // ---- the throttle ----

  /** From the sixth attempt on, each began at least the lockout after the one before it was charged. */
  ghost predicate Spaced(attempts: seq<Attempt>) {
    && (forall i :: 0 <= i < |attempts| ==> attempts[i].began <= attempts[i].charged)
    && (forall i :: MAX_FAILED_LOGIN_ATTEMPTS <= i < |attempts| ==>
          attempts[i].began >= attempts[i - 1].charged + LOGIN_LOCKOUT)
  }

  lemma {:induction false} AttemptsAreSpaced(events: seq<Event>)
    ensures var h := PastOf(events);
            Spaced(h.attempts) && (h.attempts != [] ==> h.attempts[|h.attempts| - 1].charged <= h.clock)
    decreases |events|
  {
    if events != [] {
      AttemptsAreSpaced(events[..|events| - 1]);
    }
  }

  lemma {:induction false} SpacedFrom(attempts: seq<Attempt>, k: nat)
    requires Spaced(attempts) && MAX_FAILED_LOGIN_ATTEMPTS - 1 <= k < |attempts|
    ensures attempts[k].began
         >= attempts[MAX_FAILED_LOGIN_ATTEMPTS - 1].began + (k - (MAX_FAILED_LOGIN_ATTEMPTS - 1)) * LOGIN_LOCKOUT
    decreases k
  {
    if k > MAX_FAILED_LOGIN_ATTEMPTS - 1 {
      SpacedFrom(attempts, k - 1);
    }
  }

  lemma ThrottleHolds(attempts: seq<Attempt>, clock: int)
    requires Spaced(attempts) && |attempts| >= MAX_FAILED_LOGIN_ATTEMPTS
    requires attempts[|attempts| - 1].charged <= clock
    ensures |attempts| <= MAX_FAILED_LOGIN_ATTEMPTS
                          + (clock - attempts[MAX_FAILED_LOGIN_ATTEMPTS - 1].began) / LOGIN_LOCKOUT
  {
    SpacedFrom(attempts, |attempts| - 1);
  }

  /** However many logins run at once, a login is admitted exactly when fewer than five attempts were
      admitted since the last successful one, or a lockout has passed since the last of them was charged;
      so those attempts number at most five plus one for every full lockout since the fifth began. */
  lemma LoginThrottle(events: seq<Event>, now: int)
    ensures var s := Run(FRESH, events);
            var attempts := PastOf(events).attempts;
            && (s.clock <= now ==> (Admitted(s, now) <==> Free(attempts, now)))
            && s.failed == |attempts|
            && (|attempts| >= MAX_FAILED_LOGIN_ATTEMPTS ==>
                  |attempts| <= MAX_FAILED_LOGIN_ATTEMPTS
                                + (s.clock - attempts[MAX_FAILED_LOGIN_ATTEMPTS - 1].began) / LOGIN_LOCKOUT)
  {
    RunAgrees(events);
    AttemptsAreSpaced(events);
    var h := PastOf(events);
    if |h.attempts| >= MAX_FAILED_LOGIN_ATTEMPTS {
      ThrottleHolds(h.attempts, h.clock);
    }
  }

  /** Only a login whose password matched loosens the throttle: in any run, every other event keeps the
      recorded attempts or adds one, and with them the count and the lockout. */
  lemma OnlySuccessLoosens(events: seq<Event>, e: Event)
    requires !(e.Finish? && e.matches)
    ensures var s := Run(FRESH, events);
            var t := Apply(s, e);
            && s.failed <= t.failed && s.lockedUntil <= t.lockedUntil
            && PastOf(events).attempts <= Recorded(PastOf(events), e).attempts
            && t.failed == |Recorded(PastOf(events), e).attempts|
  {
    RunAgrees(events);
    AgreesStep(Run(FRESH, events), PastOf(events), e);
    AttemptsAreSpaced(events);
  }

  // ---- sessions ----

  /** Over any run, sweeping and lazy erasing notwithstanding, a token is accepted exactly when it was issued
      by a successful login less than a day ago and has not been logged out since. */
  lemma ValidateIsExact(events: seq<Event>, token: Token, now: int)
    requires now >= Run(FRESH, events).clock
    ensures var live := PastOf(events).live;
            ValidateResult(Run(FRESH, events).sessions, token, now).0 <==> token in live && now < live[token]
  {
    RunAgrees(events);
  }

  /** Issuing a session leaves no expired one behind. */
  lemma IssueSweeps(s: State, attempt: nat, token: Token, now: int)
    requires Enabled(s, Finish(attempt, true, Some(token), now))
    ensures var t := Apply(s, Finish(attempt, true, Some(token), now));
            && (forall k :: k in t.sessions ==> now < t.sessions[k])
            && ValidateResult(t.sessions, token, now).0
  {
  }

  // ---- the service's own methods ----

  /** Walks every byte whatever the first difference, and still decides equality. */
  method ConstantTimeEquals(a: seq<bv8>, b: seq<bv8>) returns (same: bool)
    ensures same <==> a == b
  {
    if |a| != |b| {
      return false;
    }
    var diff: bv8 := 0;
    for i := 0 to |a|
      invariant diff == 0 <==> a[..i] == b[..i]
    {
      assert a[..i + 1] == a[..i] + [a[i]] && b[..i + 1] == b[..i] + [b[i]];
      diff := diff | (a[i] ^ b[i]);
    }
    assert a[..|a|] == a && b[..|b|] == b;
    return diff == 0;
  }

  class AdminAuthService {
    var failedLoginAttempts: nat
    var lockedUntil: int
    var sessions: map<Token, int>
    ghost var inFlight: set<nat>
    ghost var begun: nat
    ghost var clock: int

    ghost function View(): State
      reads this
    {
      State(failedLoginAttempts, lockedUntil, sessions, inFlight, begun, clock)
    }

    constructor ()
      ensures View() == FRESH
    {
      failedLoginAttempts, lockedUntil, sessions := 0, 0, map[];
      inFlight, begun, clock := {}, 0, 0;
    }

    /** Login's first critical section; None when locked out, else the attempt it reserved. */
    method BeginLogin(now: int, charged: int) returns (admitted: bool, ghost attempt: nat)
      requires clock <= now <= charged && begun !in inFlight
      modifies this
      ensures View() == Apply(old(View()), Begin(now, charged))
      ensures admitted == Admitted(old(View()), now)
      ensures admitted ==> attempt !in old(inFlight) && inFlight == old(inFlight) + {attempt}
    {
      attempt := begun;
      if now < lockedUntil {
        clock := charged;
        return false, attempt;
      }
      failedLoginAttempts := failedLoginAttempts + 1;
      if failedLoginAttempts >= MAX_FAILED_LOGIN_ATTEMPTS {
        lockedUntil := charged + LOGIN_LOCKOUT;
      }
      inFlight, begun, clock := inFlight + {begun}, begun + 1, charged;
      return true, attempt;
    }

    method SweepExpiredSessions(now: int)
      modifies this`sessions
      ensures sessions == Swept(old(sessions), now)
    {
      var unseen := sessions.Keys;
      while unseen != {}
        invariant unseen <= sessions.Keys <= old(sessions).Keys
        invariant forall t :: t in sessions ==> sessions[t] == old(sessions)[t]
        invariant forall t :: t in old(sessions) && t !in unseen ==> (t in sessions <==> now < old(sessions)[t])
        decreases |unseen|
      {
        var token :| token in unseen;
        unseen := unseen - {token};
        if now >= sessions[token] {
          sessions := sessions - {token};
        }
      }
    }

    /** Login's second critical section, after the hash. `token` is what the generator yields. */
    method FinishLogin(authenticated: bool, token: Option<Token>, now: int, ghost attempt: nat)
      returns (session: Option<Token>)
      requires clock <= now && attempt in inFlight
      modifies this
      ensures View() == Apply(old(View()), Finish(attempt, authenticated, token, now))
      ensures session == if authenticated then token else None
    {
      inFlight, clock := inFlight - {attempt}, now;
      if !authenticated {
        return None;
      }
      failedLoginAttempts, lockedUntil := 0, 0;
      SweepExpiredSessions(now);
      if token.None? {
        return None;
      }
      sessions := sessions[token.value := now + SESSION_LIFETIME];
      return token;
    }

    /** A scan over every session, comparing whole tokens. */
    method ValidateSession(token: Token, now: int) returns (valid: bool)
      requires clock <= now
      modifies this`sessions, this`clock
      ensures View() == Apply(old(View()), Validate(token, now))
      ensures valid == ValidateResult(old(sessions), token, now).0
    {
      clock := now;
      var unseen := sessions.Keys;
      while unseen != {}
        invariant unseen <= sessions.Keys && (token in sessions ==> token in unseen)
        invariant sessions == old(sessions) && clock == now
        decreases |unseen|
      {
        var key :| key in unseen;
        unseen := unseen - {key};
        var same := ConstantTimeEquals(key, token);
        if same {
          if now >= sessions[key] {
            sessions := sessions - {key};
            return false;
          }
          return true;
        }
      }
      return false;
    }
  }
}
