/**
 The login limiter and session table of access/localweb/auth.go. Times are nanoseconds; the
 password comparison is an input, since Argon2 is not modelled.
 */
module LoginLimiter {
  import opened Prelude

  type ClientKey = string
  type SessionToken = string

  const FAILURE_WINDOW := 60_000_000_000
  const SESSION_TTL := 43_200_000_000_000
  const MAX_CLIENT_FAILURES := 5
  const MAX_GLOBAL_FAILURES := 50
  const MAX_SESSIONS := 64
  const TOKEN_LENGTH := 43

  /** A failure window; `None` is the zero time. */
  datatype FailureState = FailureState(started: Option<int>, count: nat)

  datatype Auth = Auth(sessions: map<SessionToken, int>, failures: map<ClientKey, FailureState>, global: FailureState)

  const INITIAL := Auth(map[], map[], FailureState(None, 0))

  predicate Elapsed(w: FailureState, now: int) {
    w.started.None? || w.started.value + FAILURE_WINDOW <= now
  }

  function CurrentWindow(w: FailureState, now: int): FailureState {
    if Elapsed(w, now) then FailureState(Some(now), 0) else w
  }

  function RetryDelay(w: FailureState, maximum: nat, now: int): nat {
    if w.count < maximum || Elapsed(w, now) then 0 else w.started.value + FAILURE_WINDOW - now
  }

  function ClientState(a: Auth, key: ClientKey): FailureState {
    if key in a.failures then a.failures[key] else FailureState(None, 0)
  }

  /** The reset at the head of retryAfter: a new global window forgets every client. */
  function Refresh(a: Auth, now: int): Auth {
    if Elapsed(a.global, now) then a.(global := FailureState(Some(now), 0), failures := map[]) else a
  }

  /** What retryAfter answers once the global window is current. */
  function DelayNow(a: Auth, key: ClientKey, now: int): nat {
    var global := RetryDelay(a.global, MAX_GLOBAL_FAILURES, now);
    if 0 < global then global else RetryDelay(CurrentWindow(ClientState(a, key), now), MAX_CLIENT_FAILURES, now)
  }

  function RecordFailure(a: Auth, key: ClientKey, now: int): Auth {
    var client := CurrentWindow(ClientState(a, key), now);
    var global := CurrentWindow(a.global, now);
    a.(failures := a.failures[key := client.(count := client.count + 1)], global := global.(count := global.count + 1))
  }

  function PruneSessions(sessions: map<SessionToken, int>, now: int): map<SessionToken, int> {
    map token | token in sessions && now < sessions[token] :: sessions[token]
  }

  /** Nothing expires earlier. */
  ghost predicate Oldest(sessions: map<SessionToken, int>, token: SessionToken) {
    token in sessions && forall t :: t in sessions ==> sessions[token] <= sessions[t]
  }

  /** Room for one more: if the table is full, one of the sessions that expire first goes. */
  ghost predicate Evicted(before: map<SessionToken, int>, after: map<SessionToken, int>) {
    if |before| < MAX_SESSIONS then after == before
    else exists token :: Oldest(before, token) && after == before - {token}
  }

  lemma {:induction false} SomeOldest(sessions: map<SessionToken, int>) returns (token: SessionToken)
    requires sessions != map[]
    ensures Oldest(sessions, token)
  {
    token :| token in sessions;
    var rest := sessions - {token};
    var first := token;
    if rest != map[] {
      var other := SomeOldest(rest);
      if sessions[other] < sessions[token] { token := other; }
    }
    forall t | t in sessions ensures sessions[token] <= sessions[t] { assert t == first || t in rest; }
  }

  lemma SomeEvicted(sessions: map<SessionToken, int>) returns (kept: map<SessionToken, int>)
    ensures Evicted(sessions, kept)
  {
    if |sessions| < MAX_SESSIONS {
      kept := sessions;
    } else {
      var token := SomeOldest(sessions);
      kept := sessions - {token};
    }
  }

  /** The cookie is that of a session that has not expired. */
  predicate Accepts(a: Auth, token: SessionToken, now: int) {
    |token| == TOKEN_LENGTH && token in a.sessions && now < a.sessions[token]
  }

  /** A login attempt, or the lookup of a session cookie. `kept` are the sessions left after pruning and eviction. */
  datatype Event =
    | Attempt(key: ClientKey, now: int, matched: bool, random: Option<SessionToken>, kept: map<SessionToken, int>)
    | Lookup(token: SessionToken, now: int)

  /** What an event makes of counters and sessions. */
  function After(a: Auth, e: Event): Auth {
    match e
    case Lookup(token, now) =>
      if |token| == TOKEN_LENGTH && token in a.sessions && a.sessions[token] <= now
      then a.(sessions := a.sessions - {token}) else a
    case Attempt(key, now, matched, random, kept) =>
      var b := Refresh(a, now);
      if 0 < DelayNow(b, key, now) then b
      else if !matched then RecordFailure(b, key, now)
      else if random.None? then b
      else b.(failures := b.failures - {key}, sessions := kept[random.value := now + SESSION_TTL])
  }

  datatype Answer = Blocked(delay: nat) | Refused | Granted(token: SessionToken) | NoToken

  class WebAuthenticator {
    var sessions: map<SessionToken, int>
    var failures: map<ClientKey, FailureState>
    var global: FailureState

    ghost function View(): Auth
      reads this
    {
      Auth(sessions, failures, global)
    }

    constructor ()
      ensures View() == INITIAL
    {
      sessions, failures, global := map[], map[], FailureState(None, 0);
    }

    method RetryAfter(key: ClientKey, now: int) returns (delay: nat)
      modifies this`failures, this`global
      ensures View() == Refresh(old(View()), now) && delay == DelayNow(View(), key, now)
    {
      if global.started.None? || global.started.value + FAILURE_WINDOW <= now {
        global := FailureState(Some(now), 0);
        failures := map[];
      }
      delay := RetryDelay(global, MAX_GLOBAL_FAILURES, now);
      if delay > 0 {
        return;
      }
      var client := if key in failures then failures[key] else FailureState(None, 0);
      delay := RetryDelay(CurrentWindow(client, now), MAX_CLIENT_FAILURES, now);
    }

    method Record(key: ClientKey, now: int)
      modifies this`failures, this`global
      ensures View() == RecordFailure(old(View()), key, now)
    {
      var client := CurrentWindow(if key in failures then failures[key] else FailureState(None, 0), now);
      client := client.(count := client.count + 1);
      failures := failures[key := client];
      global := CurrentWindow(global, now);
      global := global.(count := global.count + 1);
    }

    method PruneExpired(now: int)
      modifies this`sessions
      ensures sessions == PruneSessions(old(sessions), now)
    {
      var pending := sessions.Keys;
      while pending != {}
        invariant pending <= old(sessions).Keys
        invariant forall t :: t in sessions <==> t in old(sessions) && (t in pending || now < old(sessions)[t])
        invariant forall t :: t in sessions ==> sessions[t] == old(sessions)[t]
        decreases pending
      {
        var token :| token in pending;
        pending := pending - {token};
        if sessions[token] <= now {
          sessions := sessions - {token};
        }
      }
    }

    method EvictOldest()
      modifies this`sessions
      ensures Evicted(old(sessions), sessions)
    {
      if |sessions| < MAX_SESSIONS {
        return;
      }
      var pending := sessions.Keys;
      var oldest: Option<SessionToken> := None;
      while pending != {}
        invariant sessions == old(sessions) && pending <= sessions.Keys
        invariant oldest.None? ==> pending == sessions.Keys
        invariant oldest.Some? ==>
                    && oldest.value in sessions
                    && forall t :: t in sessions && t !in pending ==> sessions[oldest.value] <= sessions[t]
        decreases pending
      {
        var token :| token in pending;
        pending := pending - {token};
        if oldest.None? || sessions[token] < sessions[oldest.value] {
          oldest := Some(token);
        }
      }
      assert sessions.Keys != {};
      assert Oldest(old(sessions), oldest.value);
      sessions := sessions - {oldest.value};
    }

    /** authenticate, which verifyMu runs one at a time; `random` is the new token, if one could be made. */
    method Authenticate(key: ClientKey, now: int, matched: bool, random: Option<SessionToken>)
      returns (answer: Answer, ghost kept: map<SessionToken, int>)
      modifies this
      ensures answer.Blocked? <==> 0 < DelayNow(Refresh(old(View()), now), key, now)
      ensures answer.Blocked? ==> answer.delay == DelayNow(Refresh(old(View()), now), key, now)
      ensures answer.Refused? <==> !answer.Blocked? && !matched
      ensures answer.NoToken? <==> !answer.Blocked? && matched && random.None?
      ensures answer.Granted? <==> !answer.Blocked? && matched && random.Some?
      ensures answer.Granted? ==> random == Some(answer.token) && sessions == kept[answer.token := now + SESSION_TTL]
      ensures Evicted(PruneSessions(old(sessions), now), kept)
      ensures View() == After(old(View()), Attempt(key, now, matched, random, kept))
    {
      kept := SomeEvicted(PruneSessions(sessions, now));
      var delay := RetryAfter(key, now);
      if delay > 0 {
        return Blocked(delay), kept;
      }
      if !matched {
        Record(key, now);
        return Refused, kept;
      }
      if random.None? {
        return NoToken, kept;
      }
      failures := failures - {key};
      PruneExpired(now);
      EvictOldest();
      kept := sessions;
      sessions := sessions[random.value := now + SESSION_TTL];
      return Granted(random.value), kept;
    }

    /** authenticated, for the request's session cookie, if it has one. */
    method Authenticated(cookie: Option<SessionToken>, now: int) returns (valid: bool)
      modifies this`sessions
      ensures valid <==> cookie.Some? && Accepts(old(View()), cookie.value, now)
      ensures View() == if cookie.None? then old(View()) else After(old(View()), Lookup(cookie.value, now))
    {
      if cookie.None? || |cookie.value| != TOKEN_LENGTH {
        return false;
      }
      if cookie.value !in sessions || sessions[cookie.value] <= now {
        sessions := sessions - {cookie.value};
        return false;
      }
      return true;
    }
  }

  // ---- Every sequence of login attempts -----------------------------------------------------

  /** One failed comparison, whose it was, and the start of the global window it was counted in. */
  datatype Failure = Failure(key: ClientKey, time: int, window: int)

  /** One success. */
  datatype Issue = Issue(token: SessionToken, time: int)

  /** `granted` is, for each client that has logged in, how many comparisons had failed by then. */
  datatype System = System(
    auth: Auth, clock: Option<int>, failed: seq<Failure>, granted: map<ClientKey, nat>, issued: seq<Issue>)

  /** The clock of attempts, which come one at a time, does not go back; a lookup has its own time. */
  ghost predicate Possible(s: System, e: Event) {
    e.Attempt? ==>
      && (s.clock.Some? ==> s.clock.value <= e.now)
      && Evicted(PruneSessions(s.auth.sessions, e.now), e.kept)
  }

  /** The attempt is compared and fails, or succeeds with a token. */
  predicate Fails(a: Auth, e: Event) {
    e.Attempt? && DelayNow(Refresh(a, e.now), e.key, e.now) == 0 && !e.matched
  }

  predicate Succeeds(a: Auth, e: Event) {
    e.Attempt? && DelayNow(Refresh(a, e.now), e.key, e.now) == 0 && e.matched && e.random.Some?
  }

  /** A failed comparison is counted in the current global window. */
  function NewFailure(a: Auth, key: ClientKey, now: int): Failure {
    var g := RecordFailure(a, key, now).global.started;
    Failure(key, now, if g.Some? then g.value else now)
  }

  function Refreshed(s: System, now: int): System {
    s.(auth := Refresh(s.auth, now), clock := Some(now))
  }

  function Failed(s: System, key: ClientKey, now: int): System {
    s.(auth := RecordFailure(s.auth, key, now), failed := s.failed + [NewFailure(s.auth, key, now)])
  }

  ghost function Step(s: System, e: Event): System {
    if !Possible(s, e) then s
    else
      System(
        After(s.auth, e),
        if e.Attempt? then Some(e.now) else s.clock,
        if Fails(s.auth, e) then s.failed + [NewFailure(Refresh(s.auth, e.now), e.key, e.now)] else s.failed,
        if Succeeds(s.auth, e) then s.granted[e.key := |s.failed|] else s.granted,
        if Succeeds(s.auth, e) then s.issued + [Issue(e.random.value, e.now)] else s.issued)
  }

  ghost function Run(events: seq<Event>): System {
    if events == [] then System(INITIAL, None, [], map[], [])
    else Step(Run(events[..|events| - 1]), events[|events| - 1])
  }

  /** The failures of one client from index `from` on. */
  function Mine(failed: seq<Failure>, key: ClientKey, from: nat): seq<Failure> {
    if |failed| <= from then []
    else
      Mine(failed[..|failed| - 1], key, from) + (if failed[|failed| - 1].key == key then [failed[|failed| - 1]] else [])
  }

  /** A client's failures since its last success. */
  function SinceSuccess(s: System, key: ClientKey): seq<Failure> {
    Mine(s.failed, key, if key in s.granted then s.granted[key] else 0)
  }

  function InWindow(failed: seq<Failure>, window: int): nat {
    if failed == [] then 0
    else InWindow(failed[..|failed| - 1], window) + (if failed[|failed| - 1].window == window then 1 else 0)
  }

  function Between(failed: seq<Failure>, lo: int, hi: int): nat {
    if failed == [] then 0
    else Between(failed[..|failed| - 1], lo, hi) + (if lo <= failed[|failed| - 1].time <= hi then 1 else 0)
  }

  /** Each failure lies in its window; windows start at least a window length apart. */
  ghost predicate Spaced(failed: seq<Failure>) {
    && (forall i :: 0 <= i < |failed| ==> failed[i].window <= failed[i].time < failed[i].window + FAILURE_WINDOW)
    && (forall i, j :: 0 <= i < j < |failed| ==>
          failed[i].window == failed[j].window || failed[i].window + FAILURE_WINDOW <= failed[j].window)
  }

  /** Client windows start no earlier than the global one, so never end before it. */
  ghost predicate WindowsOk(s: System) {
    var g := s.auth.global;
    && (g.started.None? ==> g.count == 0 && s.auth.failures == map[] && s.failed == [])
    && (g.started.Some? ==> s.clock.Some? && g.started.value <= s.clock.value && g.count <= MAX_GLOBAL_FAILURES)
    && (forall key :: key in s.auth.failures ==>
          && s.auth.failures[key].started.Some? && g.started.Some?
          && g.started.value <= s.auth.failures[key].started.value <= s.clock.value
          && s.auth.failures[key].count <= MAX_CLIENT_FAILURES)
  }

  ghost predicate CountsOk(s: System) {
    && Spaced(s.failed)
    && (forall w :: InWindow(s.failed, w) <= MAX_GLOBAL_FAILURES)
    && (s.auth.global.started.Some? ==>
          && InWindow(s.failed, s.auth.global.started.value) == s.auth.global.count
          && forall i :: 0 <= i < |s.failed| ==>
               || s.failed[i].window == s.auth.global.started.value
               || s.failed[i].window + FAILURE_WINDOW <= s.auth.global.started.value)
  }

  /** A client's counter is the number of its failures in the current global window since its last success. */
  ghost predicate ClientsOk(s: System) {
    && (forall key :: key in s.granted ==> s.granted[key] <= |s.failed|)
    && (forall key, w :: InWindow(SinceSuccess(s, key), w) <= MAX_CLIENT_FAILURES)
    && (s.auth.global.started.Some? ==>
          forall key :: InWindow(SinceSuccess(s, key), s.auth.global.started.value) == ClientState(s.auth, key).count)
  }

  ghost predicate Inv(s: System) {
    WindowsOk(s) && CountsOk(s) && ClientsOk(s) && |s.auth.sessions| <= MAX_SESSIONS
  }

  lemma {:induction false} NoneInWindow(failed: seq<Failure>, window: int)
    requires forall i :: 0 <= i < |failed| ==> failed[i].window != window
    ensures InWindow(failed, window) == 0
  {
    if failed != [] { NoneInWindow(failed[..|failed| - 1], window); }
  }

  lemma {:induction false} MineAreFailures(failed: seq<Failure>, key: ClientKey, from: nat, k: nat)
    requires k < |Mine(failed, key, from)|
    ensures Mine(failed, key, from)[k] in failed
  {
    var front := failed[..|failed| - 1];
    if k < |Mine(front, key, from)| { MineAreFailures(front, key, from, k); }
  }

  lemma NoneOfMineInWindow(failed: seq<Failure>, key: ClientKey, from: nat, window: int)
    requires forall i :: 0 <= i < |failed| ==> failed[i].window != window
    ensures InWindow(Mine(failed, key, from), window) == 0
  {
    var mine := Mine(failed, key, from);
    forall k | 0 <= k < |mine| ensures mine[k].window != window { MineAreFailures(failed, key, from, k); }
    NoneInWindow(mine, window);
  }

  lemma NewWindowIsEmpty(s: System, now: int)
    requires Inv(s) && (s.clock.Some? ==> s.clock.value <= now) && Elapsed(s.auth.global, now)
    ensures InWindow(s.failed, now) == 0 && forall key :: InWindow(SinceSuccess(s, key), now) == 0
    ensures forall i :: 0 <= i < |s.failed| ==> s.failed[i].window + FAILURE_WINDOW <= now
  {
    assert forall i :: 0 <= i < |s.failed| ==> s.failed[i].window + FAILURE_WINDOW <= now;
    NoneInWindow(s.failed, now);
    forall key ensures InWindow(SinceSuccess(s, key), now) == 0 {
      NoneOfMineInWindow(s.failed, key, if key in s.granted then s.granted[key] else 0, now);
    }
  }

  lemma RefreshInv(s: System, now: int)
    requires Inv(s) && (s.clock.Some? ==> s.clock.value <= now)
    ensures var t := Refreshed(s, now);
            Inv(t) && t.auth.global.started.Some? && !Elapsed(t.auth.global, now)
  {
    var t := Refreshed(s, now);
    if Elapsed(s.auth.global, now) { NewWindowIsEmpty(s, now); }
    assert forall key :: SinceSuccess(t, key) == SinceSuccess(s, key);
  }

  lemma MineSnoc(failed: seq<Failure>, f: Failure, key: ClientKey, from: nat)
    requires from <= |failed|
    ensures Mine(failed + [f], key, from) == Mine(failed, key, from) + (if f.key == key then [f] else [])
  {
    assert (failed + [f])[..|failed|] == failed;
  }

  /** One client's counts after a failure. */
  lemma ClientCount(s: System, f: Failure, key: ClientKey, w: int)
    requires ClientsOk(s)
    ensures InWindow(SinceSuccess(s.(failed := s.failed + [f]), key), w)
         == InWindow(SinceSuccess(s, key), w) + (if f.key == key && f.window == w then 1 else 0)
  {
    MineSnoc(s.failed, f, key, if key in s.granted then s.granted[key] else 0);
    InWindowSnoc(SinceSuccess(s, key), f, w);
    assert SinceSuccess(s, key) + [] == SinceSuccess(s, key);
  }

  lemma RecordedCount(s: System, key: ClientKey, now: int, k: ClientKey)
    requires WindowsOk(s) && s.auth.global.started.Some? && !Elapsed(s.auth.global, now)
    requires DelayNow(s.auth, key, now) == 0
    ensures var b := RecordFailure(s.auth, key, now);
            && b.global.started == s.auth.global.started && ClientState(s.auth, key).count < MAX_CLIENT_FAILURES
            && ClientState(b, k).count == ClientState(s.auth, k).count + if k == key then 1 else 0
  {
  }

  lemma FailedSince(s: System, key: ClientKey, now: int, k: ClientKey)
    requires s.auth.global.started.Some? && !Elapsed(s.auth.global, now)
    ensures var f := Failure(key, now, s.auth.global.started.value);
            SinceSuccess(Failed(s, key, now), k) == SinceSuccess(s.(failed := s.failed + [f]), k)
  {
  }

  lemma FailureClient(s: System, key: ClientKey, now: int, k: ClientKey, w: int)
    requires WindowsOk(s) && ClientsOk(s) && s.auth.global.started.Some?
    requires !Elapsed(s.auth.global, now) && DelayNow(s.auth, key, now) == 0
    ensures var t := Failed(s, key, now);
            && InWindow(SinceSuccess(t, k), w) <= MAX_CLIENT_FAILURES
            && (w == s.auth.global.started.value ==> InWindow(SinceSuccess(t, k), w) == ClientState(t.auth, k).count)
  {
    var f := Failure(key, now, s.auth.global.started.value);
    RecordedCount(s, key, now, k);
    ClientCount(s, f, k, w);
    FailedSince(s, key, now, k);
  }

  lemma FailureClients(s: System, key: ClientKey, now: int)
    requires WindowsOk(s) && ClientsOk(s) && s.auth.global.started.Some?
    requires !Elapsed(s.auth.global, now) && DelayNow(s.auth, key, now) == 0
    ensures ClientsOk(Failed(s, key, now))
  {
    var t, started := Failed(s, key, now), s.auth.global.started.value;
    RecordedCount(s, key, now, key);
    forall k, w ensures InWindow(SinceSuccess(t, k), w) <= MAX_CLIENT_FAILURES { FailureClient(s, key, now, k, w); }
    forall k
      ensures InWindow(SinceSuccess(t, k), started) == ClientState(t.auth, k).count
    {
      FailureClient(s, key, now, k, started);
    }
  }

  lemma FailureCounts(s: System, key: ClientKey, now: int)
    requires WindowsOk(s) && CountsOk(s) && s.clock == Some(now) && s.auth.global.started.Some?
    requires !Elapsed(s.auth.global, now)
    requires DelayNow(s.auth, key, now) == 0
    ensures WindowsOk(Failed(s, key, now)) && CountsOk(Failed(s, key, now))
  {
    var started := s.auth.global.started.value;
    var more := s.failed + [Failure(key, now, started)];
    forall w ensures InWindow(more, w) == InWindow(s.failed, w) + (if started == w then 1 else 0) {
      InWindowSnoc(s.failed, Failure(key, now, started), w);
    }
  }

  lemma FailureInv(s: System, key: ClientKey, now: int)
    requires Inv(s) && s.clock == Some(now) && s.auth.global.started.Some? && !Elapsed(s.auth.global, now)
    requires DelayNow(s.auth, key, now) == 0
    ensures Inv(Failed(s, key, now))
  {
    FailureCounts(s, key, now);
    FailureClients(s, key, now);
  }

  /** A success forgets the client's failures. */
  lemma SuccessClients(s: System, t: System, key: ClientKey)
    requires ClientsOk(s) && t.failed == s.failed && t.granted == s.granted[key := |s.failed|]
    requires t.auth.global == s.auth.global && t.auth.failures == s.auth.failures - {key}
    ensures ClientsOk(t)
  {
    assert SinceSuccess(t, key) == [];
    assert forall k :: k != key ==>
        SinceSuccess(t, k) == SinceSuccess(s, k) && ClientState(t.auth, k) == ClientState(s.auth, k);
  }

  lemma InWindowSnoc(failed: seq<Failure>, f: Failure, window: int)
    ensures InWindow(failed + [f], window) == InWindow(failed, window) + (if f.window == window then 1 else 0)
  {
    assert (failed + [f])[..|failed|] == failed;
  }

  lemma PrunedSize(sessions: map<SessionToken, int>, now: int)
    ensures |PruneSessions(sessions, now)| <= |sessions|
  {
    SubsetSize(PruneSessions(sessions, now).Keys, sessions.Keys);
  }

  lemma {:induction false} SubsetSize(a: set<SessionToken>, b: set<SessionToken>)
    requires a <= b
    ensures |a| <= |b|
  {
    if a != {} {
      var x :| x in a;
      SubsetSize(a - {x}, b - {x});
    }
  }

  lemma KeptSize(sessions: map<SessionToken, int>, kept: map<SessionToken, int>, token: SessionToken, expires: int)
    requires |sessions| <= MAX_SESSIONS && Evicted(sessions, kept)
    ensures |kept[token := expires]| <= MAX_SESSIONS
  {
    if |sessions| < MAX_SESSIONS {
    } else {
      var oldest :| Oldest(sessions, oldest) && kept == sessions - {oldest};
      assert kept.Keys == sessions.Keys - {oldest};
    }
    assert kept[token := expires].Keys == kept.Keys + {token};
  }

  lemma AttemptInv(s: System, e: Event)
    requires Inv(s) && e.Attempt? && Possible(s, e)
    ensures Inv(Step(s, e))
  {
    var t := Refreshed(s, e.now);
    RefreshInv(s, e.now);
    if DelayNow(t.auth, e.key, e.now) == 0 {
      if !e.matched {
        FailureInv(t, e.key, e.now);
      } else if e.random.Some? {
        PrunedSize(s.auth.sessions, e.now);
        KeptSize(PruneSessions(s.auth.sessions, e.now), e.kept, e.random.value, e.now + SESSION_TTL);
        SuccessClients(t, Step(s, e), e.key);
      }
    }
  }

  lemma SameClients(s: System, t: System)
    requires ClientsOk(s) && t.failed == s.failed && t.granted == s.granted
    requires t.auth.global == s.auth.global && t.auth.failures == s.auth.failures
    ensures ClientsOk(t)
  {
    assert forall key ::
        SinceSuccess(t, key) == SinceSuccess(s, key) && ClientState(t.auth, key) == ClientState(s.auth, key);
  }

  lemma LookupInv(s: System, e: Event)
    requires Inv(s) && e.Lookup?
    ensures Inv(Step(s, e))
  {
    assert (s.auth.sessions - {e.token}).Keys == s.auth.sessions.Keys - {e.token};
    SameClients(s, Step(s, e));
  }

  lemma StepInv(s: System, e: Event)
    requires Inv(s)
    ensures Inv(Step(s, e))
  {
    if Possible(s, e) {
      if e.Attempt? { AttemptInv(s, e); } else { LookupInv(s, e); }
    }
  }

  lemma {:induction false} RunInv(events: seq<Event>)
    ensures Inv(Run(events))
  {
    if events != [] {
      RunInv(events[..|events| - 1]);
      StepInv(Run(events[..|events| - 1]), events[|events| - 1]);
    }
  }

  // ---- What every run guarantees ------------------------------------------------------------

  predicate Within(f: Failure, lo: int) {
    lo <= f.time <= lo + FAILURE_WINDOW
  }

  /** The failures of an interval of one window length fall into the windows of two of them. */
  lemma {:induction false} TwoWindows(failed: seq<Failure>, lo: int) returns (found: bool, i: nat, j: nat)
    requires Spaced(failed)
    ensures !found ==> forall k :: 0 <= k < |failed| ==> !Within(failed[k], lo)
    ensures found ==>
              && i < |failed| && j < |failed| && Within(failed[i], lo) && Within(failed[j], lo)
              && failed[i].window <= failed[j].window
    ensures found ==> forall k :: 0 <= k < |failed| && Within(failed[k], lo) ==>
              failed[k].window in {failed[i].window, failed[j].window}
  {
    if failed == [] { return false, 0, 0; }
    var n := |failed| - 1;
    var front := failed[..n];
    found, i, j := TwoWindows(front, lo);
    if Within(failed[n], lo) {
      if found {
        ThirdWindowIsTooFar(failed, lo, i, j, n);
        j := n;
      } else {
        found, i, j := true, n, n;
      }
    }
  }

  lemma ThirdWindowIsTooFar(failed: seq<Failure>, lo: int, i: nat, j: nat, n: nat)
    requires Spaced(failed) && i < n && j < n < |failed| && failed[i].window <= failed[j].window
    requires Within(failed[i], lo) && Within(failed[n], lo)
    ensures failed[j].window in {failed[i].window, failed[n].window} && failed[i].window <= failed[n].window
  {
    assert failed[j].window == failed[n].window || failed[j].window + FAILURE_WINDOW <= failed[n].window;
    assert i < j ==> failed[i].window == failed[j].window || failed[i].window + FAILURE_WINDOW <= failed[j].window;
  }

  lemma {:induction false} CountByWindow(failed: seq<Failure>, lo: int, hi: int, w1: int, w2: int)
    requires forall i :: 0 <= i < |failed| && lo <= failed[i].time <= hi ==>
               failed[i].window == w1 || failed[i].window == w2
    ensures Between(failed, lo, hi) <= InWindow(failed, w1) + InWindow(failed, w2)
  {
    if failed != [] { CountByWindow(failed[..|failed| - 1], lo, hi, w1, w2); }
  }

  /** The two windows, for any interval of one window length. */
  lemma WindowsOf(failed: seq<Failure>, lo: int) returns (w1: int, w2: int)
    requires Spaced(failed)
    ensures forall k :: 0 <= k < |failed| && lo <= failed[k].time <= lo + FAILURE_WINDOW ==>
              failed[k].window == w1 || failed[k].window == w2
  {
    var found, i, j := TwoWindows(failed, lo);
    w1, w2 := if found then failed[i].window else 0, if found then failed[j].window else 0;
    forall k | 0 <= k < |failed| && lo <= failed[k].time <= lo + FAILURE_WINDOW
      ensures failed[k].window == w1 || failed[k].window == w2
    {
      assert Within(failed[k], lo);
    }
  }

  /** At most 50 failed comparisons per global window, and at most 100 in any stretch of 60 seconds. */
  lemma FailuresAreLimited(events: seq<Event>, window: int, lo: int)
    ensures InWindow(Run(events).failed, window) <= MAX_GLOBAL_FAILURES
    ensures Between(Run(events).failed, lo, lo + FAILURE_WINDOW) <= 2 * MAX_GLOBAL_FAILURES
  {
    RunInv(events);
    var w1, w2 := WindowsOf(Run(events).failed, lo);
    CountByWindow(Run(events).failed, lo, lo + FAILURE_WINDOW, w1, w2);
  }

  /**
   Since its last success, if any, one client has at most 5 failed comparisons per global window, and at
   most 10 in any stretch of 60 seconds.
   */
  lemma ClientFailuresAreLimited(events: seq<Event>, key: ClientKey, window: int, lo: int)
    ensures InWindow(SinceSuccess(Run(events), key), window) <= MAX_CLIENT_FAILURES
    ensures Between(SinceSuccess(Run(events), key), lo, lo + FAILURE_WINDOW) <= 2 * MAX_CLIENT_FAILURES
  {
    RunInv(events);
    var s := Run(events);
    var w1, w2 := WindowsOf(s.failed, lo);
    var mine := SinceSuccess(s, key);
    forall k | 0 <= k < |mine| && lo <= mine[k].time <= lo + FAILURE_WINDOW
      ensures mine[k].window == w1 || mine[k].window == w2
    {
      MineAreFailures(s.failed, key, if key in s.granted then s.granted[key] else 0, k);
    }
    CountByWindow(mine, lo, lo + FAILURE_WINDOW, w1, w2);
  }

  /** A client's window never ends before the global one. */
  lemma ClientOutlastsGlobal(events: seq<Event>, key: ClientKey)
    requires key in Run(events).auth.failures
    ensures var a := Run(events).auth;
            && a.global.started.Some? && a.failures[key].started.Some?
            && a.global.started.value <= a.failures[key].started.value
  {
    RunInv(events);
  }

  /**
   A blocked client that is next to try is free exactly from the end of the global window on. The delay it was given
   is at most 60 seconds and reaches at least that far; for a client's own limit it may reach further.
   */
  lemma RetryAfterDelayIsAllowed(events: seq<Event>, key: ClientKey, now: int, later: int)
    requires Run(events).clock.Some? ==> Run(events).clock.value <= now
    requires DelayNow(Refresh(Run(events).auth, now), key, now) > 0 && now <= later
    ensures var a := Refresh(Run(events).auth, now);
            var delay := DelayNow(a, key, now);
            && a.global.started.Some? && a.global.started.value + 60_000_000_000 <= now + delay <= now + 60_000_000_000
            && (DelayNow(Refresh(a, later), key, later) == 0 <==> a.global.started.value + 60_000_000_000 <= later)
  {
    RunInv(events);
    RefreshInv(Run(events), now);
  }

  lemma SessionsAreBounded(events: seq<Event>)
    ensures |Run(events).auth.sessions| <= MAX_SESSIONS
  {
    RunInv(events);
  }

  // ---- Who is blocked -----------------------------------------------------------------------

  /** Failures of a window that has not run out belong to the current global one. */
  lemma WindowIsCurrent(s: System, failed: seq<Failure>, w: int, now: int)
    requires CountsOk(s) && WindowsOk(s) && (s.clock.Some? ==> s.clock.value <= now) && now < w + FAILURE_WINDOW
    requires forall f :: f in failed ==> f in s.failed
    ensures InWindow(failed, w) > 0 ==> s.auth.global.started == Some(w)
  {
    if s.auth.global.started != Some(w) {
      forall i | 0 <= i < |failed| ensures failed[i].window != w {
        assert failed[i] in s.failed;
        var k :| 0 <= k < |s.failed| && s.failed[k] == failed[i];
      }
      NoneInWindow(failed, w);
    }
  }

  lemma MineWithin(s: System, key: ClientKey)
    ensures forall f :: f in SinceSuccess(s, key) ==> f in s.failed
  {
    var mine := SinceSuccess(s, key);
    forall f | f in mine ensures f in s.failed {
      var k :| 0 <= k < |mine| && mine[k] == f;
      MineAreFailures(s.failed, key, if key in s.granted then s.granted[key] else 0, k);
    }
  }

  /** In the current window a client is blocked by its counter or the global one. */
  lemma DelayByCounts(s: System, key: ClientKey, now: int)
    requires Inv(s) && s.auth.global.started.Some? && !Elapsed(s.auth.global, now)
    ensures var w := s.auth.global.started.value;
            DelayNow(s.auth, key, now) > 0 <==> InWindow(s.failed, w) >= 50 || InWindow(SinceSuccess(s, key), w) >= 5
  {
  }

  /** `full` says that some window that includes `now` has all its failures. */
  ghost predicate Full(s: System, key: ClientKey, now: int) {
    exists w :: w <= now < w + 60_000_000_000 && (InWindow(s.failed, w) >= 50 || InWindow(SinceSuccess(s, key), w) >= 5)
  }

  /**
   An attempt is blocked exactly if, in the global window of the moment, 50 comparisons have failed, or 5 of this
   client since its last success.
   */
  lemma BlockedIff(events: seq<Event>, key: ClientKey, now: int)
    requires Run(events).clock.Some? ==> Run(events).clock.value <= now
    ensures DelayNow(Refresh(Run(events).auth, now), key, now) > 0 <==> Full(Run(events), key, now)
  {
    var s := Run(events);
    var t := Refreshed(s, now);
    RunInv(events);
    RefreshInv(s, now);
    DelayByCounts(t, key, now);
    var g := t.auth.global.started.value;
    assert SinceSuccess(t, key) == SinceSuccess(s, key) && t.failed == s.failed;
    MineWithin(t, key);
    if Full(s, key, now) {
      var w :| w <= now < w + 60_000_000_000 && (InWindow(s.failed, w) >= 50 || InWindow(SinceSuccess(s, key), w) >= 5);
      WindowIsCurrent(t, s.failed, w, now);
      WindowIsCurrent(t, SinceSuccess(s, key), w, now);
    }
    if DelayNow(t.auth, key, now) > 0 { assert g <= now < g + 60_000_000_000; }
  }

  // ---- Sessions over runs -------------------------------------------------------------------

  ghost predicate IssuedFor(s: System, token: SessionToken, expires: int) {
    exists i :: 0 <= i < |s.issued| && s.issued[i].token == token && s.issued[i].time + SESSION_TTL == expires
  }

  /** Every session was issued, twelve hours before it expires. */
  ghost predicate SessionsOk(s: System) {
    forall token :: token in s.auth.sessions ==> IssuedFor(s, token, s.auth.sessions[token])
  }

  lemma IssuedStays(s: System, t: System, token: SessionToken, expires: int)
    requires IssuedFor(s, token, expires) && s.issued <= t.issued
    ensures IssuedFor(t, token, expires)
  {
    var i :| 0 <= i < |s.issued| && s.issued[i].token == token && s.issued[i].time + SESSION_TTL == expires;
    assert t.issued[i] == s.issued[i];
  }

  /** A session after an event was there before, as it was, or is the one that the event issues. */
  lemma SessionAfter(s: System, e: Event, token: SessionToken)
    requires Possible(s, e) && token in After(s.auth, e).sessions
    ensures var expires := After(s.auth, e).sessions[token];
            || (token in s.auth.sessions && s.auth.sessions[token] == expires)
            || (Succeeds(s.auth, e) && e.random == Some(token) && expires == e.now + SESSION_TTL)
  {
  }

  lemma SessionsStep(s: System, e: Event)
    requires SessionsOk(s)
    ensures SessionsOk(Step(s, e))
  {
    var t := Step(s, e);
    if Possible(s, e) {
      forall token | token in t.auth.sessions ensures IssuedFor(t, token, t.auth.sessions[token]) {
        SessionAfter(s, e, token);
        if Succeeds(s.auth, e) && e.random == Some(token) && t.auth.sessions[token] == e.now + SESSION_TTL {
          assert t.issued[|s.issued|] == Issue(token, e.now);
        } else {
          IssuedStays(s, t, token, t.auth.sessions[token]);
        }
      }
    }
  }

  lemma {:induction false} SessionsRun(events: seq<Event>)
    ensures SessionsOk(Run(events))
  {
    if events != [] {
      SessionsRun(events[..|events| - 1]);
      SessionsStep(Run(events[..|events| - 1]), events[|events| - 1]);
    }
  }

  /** A cookie is accepted only if a login issued it, less than twelve hours before. */
  lemma AcceptedWasIssued(events: seq<Event>, token: SessionToken, now: int) returns (i: nat)
    requires Accepts(Run(events).auth, token, now)
    ensures i < |Run(events).issued| && Run(events).issued[i].token == token
    ensures now < Run(events).issued[i].time + 43_200_000_000_000
  {
    SessionsRun(events);
    var s := Run(events);
    assert IssuedFor(s, token, s.auth.sessions[token]);
    i :| 0 <= i < |s.issued| && s.issued[i].token == token && s.issued[i].time + SESSION_TTL == s.auth.sessions[token];
  }

  /** How many logins succeeded at `from` or later. */
  function IssuedSince(issued: seq<Issue>, from: int): nat {
    if issued == [] then 0
    else IssuedSince(issued[..|issued| - 1], from) + (if issued[|issued| - 1].time >= from then 1 else 0)
  }

  ghost predicate WasIssued(issued: seq<Issue>, token: SessionToken, from: int) {
    exists i :: 0 <= i < |issued| && issued[i].token == token && issued[i].time >= from
  }

  lemma {:induction false} FewTokens(issued: seq<Issue>, from: int, tokens: set<SessionToken>)
    requires forall token :: token in tokens ==> WasIssued(issued, token, from)
    ensures |tokens| <= IssuedSince(issued, from)
  {
    if issued != [] {
      var front, last := issued[..|issued| - 1], issued[|issued| - 1];
      var rest := if last.time >= from then tokens - {last.token} else tokens;
      forall token | token in rest ensures WasIssued(front, token, from) {
        assert WasIssued(issued, token, from);
        var i :| 0 <= i < |issued| && issued[i].token == token && issued[i].time >= from;
        assert front[i] == issued[i];
      }
      FewTokens(front, from, rest);
    } else {
      assert forall token :: !WasIssued(issued, token, from);
      assert tokens == {};
    }
  }

  /** A table of sessions none of which expires before `expires` takes as many logins. */
  lemma FullTable(s: System, sessions: map<SessionToken, int>, expires: int)
    requires SessionsOk(s)
    requires forall t :: t in sessions ==> t in s.auth.sessions && s.auth.sessions[t] == sessions[t] >= expires
    ensures |sessions| <= IssuedSince(s.issued, expires - SESSION_TTL)
  {
    forall t | t in sessions ensures WasIssued(s.issued, t, expires - SESSION_TTL) {
      assert IssuedFor(s, t, s.auth.sessions[t]);
    }
    FewTokens(s.issued, expires - SESSION_TTL, sessions.Keys);
    assert |sessions.Keys| == |sessions|;
  }

  ghost predicate Lasting(s: System, token: SessionToken, expires: int) {
    token in s.auth.sessions && s.auth.sessions[token] >= expires
  }

  lemma KeptUnlessFull(s: System, e: Event, token: SessionToken, expires: int)
    requires SessionsOk(s) && Lasting(s, token, expires) && e.Attempt? && Possible(s, e) && e.now < expires
    requires IssuedSince(s.issued, expires - SESSION_TTL) < 64
    ensures token in e.kept && e.kept[token] == s.auth.sessions[token]
  {
    var pruned := PruneSessions(s.auth.sessions, e.now);
    if |pruned| >= MAX_SESSIONS {
      var oldest :| Oldest(pruned, oldest) && e.kept == pruned - {oldest};
      if oldest == token { FullTable(s, pruned, expires); }
    }
  }

  lemma IssuedGrows(s: System, e: Event, from: int)
    ensures s.issued <= Step(s, e).issued
    ensures IssuedSince(s.issued, from) <= IssuedSince(Step(s, e).issued, from)
    ensures Succeeds(s.auth, e) && Possible(s, e) && e.now >= from ==>
              IssuedSince(s.issued, from) < IssuedSince(Step(s, e).issued, from)
  {
    if Possible(s, e) && Succeeds(s.auth, e) {
      assert Step(s, e).issued[..|s.issued|] == s.issued;
    }
  }

  lemma LastingStep(s: System, e: Event, token: SessionToken, expires: int)
    requires SessionsOk(s) && Lasting(s, token, expires) && e.now < expires
    requires e.Attempt? && Possible(s, e) ==> expires - SESSION_TTL <= e.now
    requires IssuedSince(Step(s, e).issued, expires - SESSION_TTL) <= 64
    ensures Lasting(Step(s, e), token, expires)
  {
    IssuedGrows(s, e, expires - SESSION_TTL);
    if Possible(s, e) && Succeeds(s.auth, e) { KeptUnlessFull(s, e, token, expires); }
  }

  /** The clock is at `from` or later. */
  predicate ClockAt(s: System, from: int) {
    s.clock.Some? && from <= s.clock.value
  }

  lemma RunSnoc(events: seq<Event>, e: Event)
    ensures Run(events + [e]) == Step(Run(events), e)
  {
    assert (events + [e])[..|events|] == events;
  }

  lemma {:induction false} LastingRun(before: seq<Event>, after: seq<Event>, token: SessionToken, expires: int)
    requires Lasting(Run(before), token, expires) && ClockAt(Run(before), expires - SESSION_TTL)
    requires forall k :: 0 <= k < |after| ==> after[k].now < expires
    requires IssuedSince(Run(before + after).issued, expires - SESSION_TTL) <= 64
    ensures Lasting(Run(before + after), token, expires) && ClockAt(Run(before + after), expires - SESSION_TTL)
  {
    if after == [] {
      assert before + after == before;
    } else {
      var front, e := after[..|after| - 1], after[|after| - 1];
      assert before + after == before + front + [e];
      RunSnoc(before + front, e);
      IssuedGrows(Run(before + front), e, expires - SESSION_TTL);
      LastingRun(before, front, token, expires);
      SessionsRun(before + front);
      LastingStep(Run(before + front), e, token, expires);
    }
  }

  lemma GrantIsLasting(before: seq<Event>, e: Event)
    requires e.Attempt? && e.matched && e.random.Some? && Possible(Run(before), e) && !Full(Run(before), e.key, e.now)
    ensures Lasting(Run(before + [e]), e.random.value, e.now + SESSION_TTL) && ClockAt(Run(before + [e]), e.now)
  {
    RunSnoc(before, e);
    BlockedIff(before, e.key, e.now);
  }

  /**
   A client that is not blocked and has the right password is logged in: its token, of 43 characters, is accepted at
   any time in the next twelve hours, as long as at most 64 logins, itself included, succeed from then on.
   */
  lemma LoginLasts(before: seq<Event>, e: Event, after: seq<Event>, now: int)
    requires e.Attempt? && e.matched && e.random.Some? && Possible(Run(before), e) && !Full(Run(before), e.key, e.now)
    requires forall k :: 0 <= k < |after| ==> after[k].now < e.now + 43_200_000_000_000
    requires IssuedSince(Run(before + [e] + after).issued, e.now) <= 64 && now < e.now + 43_200_000_000_000
    ensures |e.random.value| == 43 ==> Accepts(Run(before + [e] + after).auth, e.random.value, now)
  {
    GrantIsLasting(before, e);
    LastingRun(before + [e], after, e.random.value, e.now + SESSION_TTL);
  }
}
