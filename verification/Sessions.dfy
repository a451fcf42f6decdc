/**
Management sessions (internal/auth/identity/session.go): the session cookie is looked up in the database
behind a TTL cache of successful lookups, with local invalidation when a user is blocked and on logout.

A request is split into its single cache accesses and its query, so any number of requests interleave with
each other, with invalidations and with changes of the database. SHA-256 is a parameter, used injectively.
The database changes in any way that keeps a session's row fixed and never reuses a token.
*/
module Sessions {
  import opened Options
  import opened TtlCache

  datatype Session = Session(userId: int, role: string)
  datatype SessionRow = SessionRow(userId: int, role: string, expiresAt: int)
  datatype UserRow = UserRow(active: bool, source: string)

  /** Sessions by token hash. */
  datatype Db = Db(sessions: map<string, SessionRow>, users: map<int, UserRow>)

  ghost predicate Injective(sha: string -> string) {
    forall a, b :: sha(a) == sha(b) ==> a == b
  }

  const NUL := '\0'

  function SessionCacheKey(sha: string -> string, source: string, token: string): string {
    sha(source + [NUL] + token)
  }

  /** The separator keeps pairs of source and token apart, also across sources. */
  lemma CacheKeySeparates(sha: string -> string, s1: string, t1: string, s2: string, t2: string)
    requires Injective(sha) && NUL !in s1 && NUL !in s2
    requires SessionCacheKey(sha, s1, t1) == SessionCacheKey(sha, s2, t2)
    ensures s1 == s2 && t1 == t2
  {
    var a, b := s1 + [NUL] + t1, s2 + [NUL] + t2;
    assert a == b;
    assert a[|s1|] == NUL && b[|s2|] == NUL;
    assert forall i | 0 <= i < |s1| :: a[i] == s1[i];
    assert forall i | 0 <= i < |s2| :: b[i] == s2[i];
    assert |s1| == |s2|;
    assert s1 == a[..|s1|] && s2 == b[..|s2|];
    assert t1 == a[|s1| + 1..] && t2 == b[|s2| + 1..];
  }

  /** Two tokens with one cache key are one token. */
  lemma SameKeySameToken(sha: string -> string, source: string, a: string, b: string)
    requires Injective(sha) && SessionCacheKey(sha, source, a) == SessionCacheKey(sha, source, b)
    ensures a == b
  {
    assert (source + [NUL] + a)[|source| + 1..] == a;
    assert (source + [NUL] + b)[|source| + 1..] == b;
  }

  /** GetByTokenForSource: an unexpired session of an active user of this source. */
  function Lookup(sha: string -> string, source: string, db: Db, now: int, token: string): Option<Session> {
    if token == "" || sha(token) !in db.sessions then None
    else
      var row := db.sessions[sha(token)];
      if row.expiresAt <= now || row.userId !in db.users || db.users[row.userId].source != source ||
         !db.users[row.userId].active then None
      else Some(Session(row.userId, row.role))
  }

  // ---------------------------------------------------------------- the authenticator

  datatype Result = Authenticated(session: Session) | NoSession | InvalidSession

  datatype Outcome = Outcome(cache: State<string, Session>, result: Result)

  /** answer is what the database says during the call; any error of the lookup is an invalid session. */
  function AuthenticateStep(sha: string -> string, source: string, ttl: int, cache: State<string, Session>,
                            cookie: Option<string>, answer: Option<Session>, now: int): Outcome
  {
    if cookie.None? || cookie.value == "" then Outcome(cache, NoSession)
    else
      var key := SessionCacheKey(sha, source, cookie.value);
      var read := GetStep(cache, ttl, key, now);
      if read.answer.Some? then Outcome(read.state, Authenticated(read.answer.value))
      else if answer.None? then Outcome(read.state, InvalidSession)
      else Outcome(SetStep(read.state, ttl, key, answer.value, now), Authenticated(answer.value))
  }

  function InvalidateUserStep(cache: State<string, Session>, userId: int): State<string, Session> {
    if userId <= 0 then cache else DeleteWhereStep(cache, (_: string, s: Session) => s.userId == userId)
  }

  function InvalidateTokenStep(sha: string -> string, source: string, cache: State<string, Session>, token: string)
    : State<string, Session>
  {
    if token == "" then cache else DeleteStep(cache, SessionCacheKey(sha, source, token))
  }

  /** An authenticator without a cache behaves like one whose TTL is not positive. */
  class SessionAuthenticator {
    const identitySource: string
    const cache: TTL<string, Session>

    constructor (identitySource: string, ttl: int)
      ensures this.identitySource == identitySource && cache.ttl == ttl
      ensures fresh(cache) && cache.View() == Empty()
    {
      this.identitySource := identitySource;
      cache := new TTL(ttl);
    }

    /** cookie: None if the request has no session cookie. */
    method AuthenticateRequest(sha: string -> string, cookie: Option<string>, answer: Option<Session>, now: int)
      returns (result: Result)
      modifies cache
      ensures Outcome(cache.View(), result) ==
              AuthenticateStep(sha, identitySource, cache.ttl, old(cache.View()), cookie, answer, now)
    {
      if cookie.None? || cookie.value == "" {
        return NoSession;
      }
      var key := SessionCacheKey(sha, identitySource, cookie.value);
      var hit := cache.Get(key, now);
      if hit.Some? {
        return Authenticated(hit.value);
      }
      if answer.None? {
        return InvalidSession;
      }
      cache.Set(key, answer.value, now);
      return Authenticated(answer.value);
    }

    method InvalidateUser(userId: int)
      modifies cache
      ensures cache.View() == InvalidateUserStep(old(cache.View()), userId)
    {
      if userId <= 0 {
        return;
      }
      cache.DeleteWhere((_: string, s: Session) => s.userId == userId);
    }

    method InvalidateToken(sha: string -> string, token: string)
      modifies cache
      ensures cache.View() == InvalidateTokenStep(sha, identitySource, old(cache.View()), token)
    {
      if token == "" {
        return;
      }
      cache.Delete(SessionCacheKey(sha, identitySource, token));
    }
  }

  // ---------------------------------------------------------------- runs

  /** d bounds the time from the start of a request to its end. */
  datatype Config = Config(sha: string -> string, source: string, ttl: int, d: int)

  ghost predicate Proper(f: Config) {
    Injective(f.sha) && f.d >= 0
  }

  datatype Snapshot = Snapshot(at: int, db: Db)

  datatype Phase = Begun | Missed | Found(session: Session) | Done(result: Result, at: int)

  datatype Call = Call(token: string, startedAt: int, phase: Phase)

  /** origin holds every session ever created, by token hash. The last snapshot of the log is the present. */
  datatype System = System(
    log: seq<Snapshot>, cache: State<string, Session>, origin: map<string, SessionRow>, calls: map<int, Call>)

  datatype Action =
    | World(snap: Snapshot, created: map<string, SessionRow>)
    | DropUser(userId: int)
    | DropToken(token: string)
    | Start(call: int, token: string)
    | Look(call: int)
    | Fetch(call: int, fails: bool)
    | Store(call: int)

  ghost predicate Started(s: System) {
    |s.log| > 0
  }

  function Present(s: System): Snapshot
    requires |s.log| > 0
  {
    s.log[|s.log| - 1]
  }

  function KeyOf(f: Config, token: string): string {
    SessionCacheKey(f.sha, f.source, token)
  }

  function LookupNow(f: Config, s: System, token: string): Option<Session>
    requires |s.log| > 0
  {
    Lookup(f.sha, f.source, Present(s).db, Present(s).at, token)
  }

  ghost predicate InFlight(f: Config, s: System, call: int)
    requires Started(s)
  {
    call in s.calls && Present(s).at <= s.calls[call].startedAt + f.d
  }

  /** Logins, blocks, logouts, other replicas and the clock: no session changes, and none that is gone comes back. */
  ghost predicate Enabled(f: Config, s: System, a: Action)
    requires Started(s)
  {
    match a
    case World(snap, created) =>
      && Present(s).at <= snap.at
      && (forall h | h in created :: h !in s.origin)
      && (forall h | h in snap.db.sessions :: h in Present(s).db.sessions || h in created)
      && (forall h | h in snap.db.sessions ::
            snap.db.sessions[h] == if h in created then created[h] else Present(s).db.sessions[h])
    case DropUser(_) => true
    case DropToken(_) => true
    case Start(call, token) => call !in s.calls && token != ""
    case Look(call) => InFlight(f, s, call) && s.calls[call].phase.Begun?
    case Fetch(call, _) => InFlight(f, s, call) && s.calls[call].phase.Missed?
    case Store(call) => InFlight(f, s, call) && s.calls[call].phase.Found?
  }

  function Advance(s: System, call: int, phase: Phase): System
    requires call in s.calls
  {
    s.(calls := s.calls[call := s.calls[call].(phase := phase)])
  }

  ghost function Next(f: Config, s: System, a: Action): System
    requires Started(s) && Enabled(f, s, a)
  {
    var now := Present(s).at;
    match a
    case World(snap, created) => s.(log := s.log + [snap], origin := s.origin + created)
    case DropUser(userId) => s.(cache := InvalidateUserStep(s.cache, userId))
    case DropToken(token) => s.(cache := InvalidateTokenStep(f.sha, f.source, s.cache, token))
    case Start(call, token) => s.(calls := s.calls[call := Call(token, now, Begun)])
    case Look(call) =>
      var read := GetStep(s.cache, f.ttl, KeyOf(f, s.calls[call].token), now);
      Advance(s, call, if read.answer.Some? then Done(Authenticated(read.answer.value), now) else Missed)
        .(cache := read.state)
    case Fetch(call, fails) =>
      var answer := if fails then None else LookupNow(f, s, s.calls[call].token);
      Advance(s, call, if answer.None? then Done(InvalidSession, now) else Found(answer.value))
    case Store(call) =>
      var c := s.calls[call];
      Advance(s, call, Done(Authenticated(c.phase.session), now))
        .(cache := SetStep(s.cache, f.ttl, KeyOf(f, c.token), c.phase.session, now))
  }

  ghost predicate Initial(s: System) {
    |s.log| == 1 && s.cache == Empty() && s.origin == Present(s).db.sessions && s.calls == map[]
  }

  /** The actions lead from s to s'. */
  ghost predicate Runs(f: Config, s: System, actions: seq<Action>, s': System)
    decreases |actions|
  {
    if actions == [] then s' == s
    else Started(s) && Enabled(f, s, actions[0]) && Runs(f, Next(f, s, actions[0]), actions[1..], s')
  }

  ghost predicate Reachable(f: Config, s: System) {
    exists s0, actions :: Initial(s0) && Runs(f, s0, actions, s)
  }

  lemma {:induction false} RunsConcat(f: Config, s: System, a: seq<Action>, s1: System, b: seq<Action>, s2: System)
    requires Runs(f, s, a, s1) && Runs(f, s1, b, s2)
    ensures Runs(f, s, a + b, s2)
    decreases |a|
  {
    if a == [] {
      assert a + b == b;
    } else {
      RunsConcat(f, Next(f, s, a[0]), a[1..], s1, b, s2);
      assert (a + b)[1..] == a[1..] + b;
    }
  }

  lemma RunsOn(f: Config, s: System, actions: seq<Action>, s1: System, a: Action)
    requires Runs(f, s, actions, s1) && Started(s1) && Enabled(f, s1, a)
    ensures Runs(f, s, actions + [a], Next(f, s1, a))
  {
    assert Runs(f, Next(f, s1, a), [], Next(f, s1, a));
    RunsConcat(f, s, actions, s1, [a], Next(f, s1, a));
  }

  /** The request, left alone, is the authentication of the class: same result, same cache. */
  lemma UndisturbedCall(f: Config, s: System, call: int, fails: bool) returns (actions: seq<Action>, s': System)
    requires Started(s) && InFlight(f, s, call) && s.calls[call].phase.Begun? && s.calls[call].token != ""
    ensures Runs(f, s, actions, s') && call in s'.calls && s'.calls[call].token == s.calls[call].token
    ensures forall a | a in actions :: a == Look(call) || a == Fetch(call, fails) || a == Store(call)
    ensures var c := s.calls[call];
            var answer := if fails then None else LookupNow(f, s, c.token);
            var step := AuthenticateStep(f.sha, f.source, f.ttl, s.cache, Some(c.token), answer, Present(s).at);
            s'.cache == step.cache && s'.calls[call].phase == Done(step.result, Present(s).at)
  {
    var s1 := Next(f, s, Look(call));
    assert Runs(f, s, [], s);
    RunsOn(f, s, [], s, Look(call));
    actions, s' := [] + [Look(call)], s1;
    if s1.calls[call].phase.Missed? {
      var s2 := Next(f, s1, Fetch(call, fails));
      RunsOn(f, s, actions, s1, Fetch(call, fails));
      actions, s' := actions + [Fetch(call, fails)], s2;
      if s2.calls[call].phase.Found? {
        RunsOn(f, s, actions, s2, Store(call));
        actions, s' := actions + [Store(call)], Next(f, s2, Store(call));
      }
    }
  }

  // ---------------------------------------------------------------- the invariant

  /** The lookup gave this session at some time after `after` and not later than `upTo`. */
  ghost predicate LookedUp(f: Config, log: seq<Snapshot>, after: int, upTo: int, token: string, v: Session) {
    exists i | 0 <= i < |log| ::
      after < log[i].at <= upTo && Lookup(f.sha, f.source, log[i].db, log[i].at, token) == Some(v)
  }

  /** The token's session was created for this user. */
  ghost predicate Owned(f: Config, origin: map<string, SessionRow>, token: string, userId: int) {
    f.sha(token) in origin && origin[f.sha(token)].userId == userId
  }

  ghost predicate Rising(log: seq<Snapshot>) {
    |log| > 0 && forall i | 0 <= i < |log| :: log[i].at <= log[|log| - 1].at
  }

  /** A cache entry belongs to a token whose session was found by a request that stored it at most d later. */
  ghost predicate EntryOk(f: Config, s: System, key: string, e: Entry<Session>, token: string)
    requires Started(s)
  {
    && key == KeyOf(f, token) && Owned(f, s.origin, token, e.value.userId)
    && LookedUp(f, s.log, e.expiresAt - f.ttl - f.d - 1, Present(s).at, token, e.value)
  }

  ghost predicate HasToken(f: Config, s: System, key: string, e: Entry<Session>)
    requires Started(s)
  {
    exists token :: EntryOk(f, s, key, e, token)
  }

  function Age(ttl: int): int {
    if ttl > 0 then ttl else 1
  }

  ghost predicate CallOk(f: Config, s: System, c: Call)
    requires Started(s)
  {
    && c.token != "" && c.startedAt <= Present(s).at
    && match c.phase
       case Begun => true
       case Missed => true
       case Found(v) =>
         Owned(f, s.origin, c.token, v.userId) && LookedUp(f, s.log, c.startedAt - 1, Present(s).at, c.token, v)
       case Done(result, t) =>
         result.Authenticated? ==> LookedUp(f, s.log, t - Age(f.ttl) - f.d, t, c.token, result.session)
  }

  ghost predicate RowsOk(s: System)
    requires Started(s)
  {
    forall h | h in Present(s).db.sessions :: h in s.origin && s.origin[h] == Present(s).db.sessions[h]
  }

  ghost predicate CacheOk(f: Config, s: System)
    requires Started(s)
  {
    forall key | key in s.cache.entries :: HasToken(f, s, key, s.cache.entries[key])
  }

  ghost predicate Inv(f: Config, s: System) {
    && Rising(s.log) && RowsOk(s) && CacheOk(f, s)
    && (forall c | c in s.calls :: CallOk(f, s, s.calls[c]))
  }

  lemma LookedUpLater(f: Config, log: seq<Snapshot>, snap: Snapshot, after: int, upTo: int, later: int, token: string,
                      v: Session)
    requires LookedUp(f, log, after, upTo, token, v) && upTo <= later
    ensures LookedUp(f, log + [snap], after, later, token, v)
  {
    var i :| 0 <= i < |log| && after < log[i].at <= upTo &&
        Lookup(f.sha, f.source, log[i].db, log[i].at, token) == Some(v);
    assert (log + [snap])[i] == log[i];
  }

  lemma CallSurvivesWorld(f: Config, s: System, a: Action, c: Call)
    requires Rising(s.log) && a.World? && Enabled(f, s, a) && CallOk(f, s, c)
    ensures CallOk(f, Next(f, s, a), c)
  {
    var now, later := Present(s).at, a.snap.at;
    match c.phase
    case Found(v) => LookedUpLater(f, s.log, a.snap, c.startedAt - 1, now, later, c.token, v);
    case Done(result, t) =>
      if result.Authenticated? {
        LookedUpLater(f, s.log, a.snap, t - Age(f.ttl) - f.d, t, t, c.token, result.session);
      }
    case _ =>
  }

  lemma EntrySurvivesWorld(f: Config, s: System, a: Action, key: string, e: Entry<Session>)
    requires Rising(s.log) && a.World? && Enabled(f, s, a) && HasToken(f, s, key, e)
    ensures HasToken(f, Next(f, s, a), key, e)
  {
    var token :| EntryOk(f, s, key, e, token);
    LookedUpLater(f, s.log, a.snap, e.expiresAt - f.ttl - f.d - 1, Present(s).at, a.snap.at, token, e.value);
    var s' := Next(f, s, a);
    assert Present(s') == a.snap && Owned(f, s'.origin, token, e.value.userId);
    assert EntryOk(f, s', key, e, token);
  }

  lemma WorldKeepsInv(f: Config, s: System, a: Action)
    requires Inv(f, s) && a.World? && Enabled(f, s, a)
    ensures Inv(f, Next(f, s, a))
  {
    var s' := Next(f, s, a);
    assert Rising(s'.log) && RowsOk(s');
    forall key | key in s'.cache.entries ensures HasToken(f, s', key, s'.cache.entries[key]) {
      EntrySurvivesWorld(f, s, a, key, s.cache.entries[key]);
    }
    forall c | c in s'.calls ensures CallOk(f, s', s'.calls[c]) {
      CallSurvivesWorld(f, s, a, s.calls[c]);
    }
  }

  lemma EntryDependsOnLog(f: Config, s: System, s': System, key: string, e: Entry<Session>)
    requires Started(s) && s'.log == s.log && s'.origin == s.origin && HasToken(f, s, key, e)
    ensures HasToken(f, s', key, e)
  {
    var token :| EntryOk(f, s, key, e, token);
    assert EntryOk(f, s', key, e, token);
  }

  /** Entries may go, and one that was stored is sound. */
  lemma EntriesKept(f: Config, s: System, s': System, stored: string)
    requires Inv(f, s) && s'.log == s.log && s'.origin == s.origin
    requires forall key | key in s'.cache.entries && key != stored ::
               key in s.cache.entries && s'.cache.entries[key] == s.cache.entries[key]
    requires stored in s'.cache.entries ==> HasToken(f, s, stored, s'.cache.entries[stored])
    ensures CacheOk(f, s')
  {
    forall key | key in s'.cache.entries ensures HasToken(f, s', key, s'.cache.entries[key]) {
      EntryDependsOnLog(f, s, s', key, s'.cache.entries[key]);
    }
  }

  lemma EntriesShrink(f: Config, s: System, s': System)
    requires Inv(f, s) && s'.log == s.log && s'.origin == s.origin
    requires forall key | key in s'.cache.entries ::
               key in s.cache.entries && s'.cache.entries[key] == s.cache.entries[key]
    ensures CacheOk(f, s')
  {
    EntriesKept(f, s, s', "");
  }

  /** A step that is not a change of the database changes one call at most. */
  lemma LocalStepKeepsInv(f: Config, s: System, s': System, call: int)
    requires Inv(f, s) && s'.log == s.log && s'.origin == s.origin && CacheOk(f, s')
    requires call in s'.calls && s'.calls == s.calls[call := s'.calls[call]] && CallOk(f, s, s'.calls[call])
    ensures Inv(f, s')
  {
    forall c | c in s'.calls ensures CallOk(f, s', s'.calls[c]) {
      assert CallOk(f, s, s'.calls[c]);
    }
  }

  lemma CallsKept(f: Config, s: System, s': System)
    requires Inv(f, s) && s'.log == s.log && s'.origin == s.origin && s'.calls == s.calls && CacheOk(f, s')
    ensures Inv(f, s')
  {
    forall c | c in s'.calls ensures CallOk(f, s', s'.calls[c]) {
      assert CallOk(f, s, s.calls[c]);
    }
  }

  lemma DropKeepsInv(f: Config, s: System, a: Action)
    requires Inv(f, s) && (a.DropUser? || a.DropToken?) && Enabled(f, s, a)
    ensures Inv(f, Next(f, s, a))
  {
    EntriesShrink(f, s, Next(f, s, a));
    CallsKept(f, s, Next(f, s, a));
  }

  lemma StartKeepsInv(f: Config, s: System, a: Action)
    requires Inv(f, s) && a.Start? && Enabled(f, s, a)
    ensures Inv(f, Next(f, s, a))
  {
    EntriesShrink(f, s, Next(f, s, a));
    LocalStepKeepsInv(f, s, Next(f, s, a), a.call);
  }

  lemma HitIsFresh(f: Config, s: System, token: string)
    requires Proper(f) && Inv(f, s) && Peek(s.cache, f.ttl, KeyOf(f, token), Present(s).at).Some?
    ensures var v := Peek(s.cache, f.ttl, KeyOf(f, token), Present(s).at).value;
            LookedUp(f, s.log, Present(s).at - Age(f.ttl) - f.d, Present(s).at, token, v)
  {
    var e := s.cache.entries[KeyOf(f, token)];
    var other :| EntryOk(f, s, KeyOf(f, token), e, other);
    SameKeySameToken(f.sha, f.source, token, other);
  }

  /** A request that has looked into the cache is done with a fresh session or goes on. */
  lemma LookedCallOk(f: Config, s: System, c: Call)
    requires Proper(f) && Inv(f, s) && CallOk(f, s, c)
    ensures var hit := Peek(s.cache, f.ttl, KeyOf(f, c.token), Present(s).at);
            CallOk(f, s, c.(phase := if hit.Some? then Done(Authenticated(hit.value), Present(s).at) else Missed))
  {
    if Peek(s.cache, f.ttl, KeyOf(f, c.token), Present(s).at).Some? {
      HitIsFresh(f, s, c.token);
    }
  }

  lemma LookKeepsInv(f: Config, s: System, a: Action)
    requires Proper(f) && Inv(f, s) && a.Look? && Enabled(f, s, a)
    ensures Inv(f, Next(f, s, a))
  {
    LookedCallOk(f, s, s.calls[a.call]);
    EntriesShrink(f, s, Next(f, s, a));
    LocalStepKeepsInv(f, s, Next(f, s, a), a.call);
  }

  lemma FetchKeepsInv(f: Config, s: System, a: Action)
    requires Proper(f) && Inv(f, s) && a.Fetch? && Enabled(f, s, a)
    ensures Inv(f, Next(f, s, a))
  {
    var c := s.calls[a.call];
    assert CallOk(f, s, c);
    var answer := LookupNow(f, s, c.token);
    if answer.Some? {
      assert s.log[|s.log| - 1] == Present(s);
      assert LookedUp(f, s.log, c.startedAt - 1, Present(s).at, c.token, answer.value);
    }
    EntriesShrink(f, s, Next(f, s, a));
    LocalStepKeepsInv(f, s, Next(f, s, a), a.call);
  }

  /** What a request in time stores and returns was looked up at most d ago. */
  lemma FoundIsFresh(f: Config, s: System, call: int)
    requires Proper(f) && Inv(f, s) && InFlight(f, s, call) && s.calls[call].phase.Found?
    ensures var c := s.calls[call];
            && HasToken(f, s, KeyOf(f, c.token), Entry(c.phase.session, Present(s).at + f.ttl))
            && CallOk(f, s, c.(phase := Done(Authenticated(c.phase.session), Present(s).at)))
  {
    var c := s.calls[call];
    var now, v := Present(s).at, c.phase.session;
    assert CallOk(f, s, c);
    assert LookedUp(f, s.log, now - f.d - 1, now, c.token, v);
    assert EntryOk(f, s, KeyOf(f, c.token), Entry(v, now + f.ttl), c.token);
  }

  lemma StoreKeepsInv(f: Config, s: System, a: Action)
    requires Proper(f) && Inv(f, s) && a.Store? && Enabled(f, s, a)
    ensures Inv(f, Next(f, s, a))
  {
    FoundIsFresh(f, s, a.call);
    if f.ttl > 0 {
      EntriesKept(f, s, Next(f, s, a), KeyOf(f, s.calls[a.call].token));
    } else {
      EntriesShrink(f, s, Next(f, s, a));
    }
    LocalStepKeepsInv(f, s, Next(f, s, a), a.call);
  }

  lemma StepKeepsInv(f: Config, s: System, a: Action)
    requires Proper(f) && Inv(f, s) && Enabled(f, s, a)
    ensures Inv(f, Next(f, s, a))
  {
    match a
    case World(_, _) => WorldKeepsInv(f, s, a);
    case DropUser(_) => DropKeepsInv(f, s, a);
    case DropToken(_) => DropKeepsInv(f, s, a);
    case Start(_, _) => StartKeepsInv(f, s, a);
    case Look(_) => LookKeepsInv(f, s, a);
    case Fetch(_, _) => FetchKeepsInv(f, s, a);
    case Store(_) => StoreKeepsInv(f, s, a);
  }

  lemma {:induction false} RunKeepsInv(f: Config, s: System, actions: seq<Action>, s': System)
    requires Proper(f) && Inv(f, s) && Runs(f, s, actions, s')
    ensures Inv(f, s')
    decreases |actions|
  {
    if actions != [] {
      StepKeepsInv(f, s, actions[0]);
      RunKeepsInv(f, Next(f, s, actions[0]), actions[1..], s');
    }
  }

  lemma ReachableInv(f: Config, s: System)
    requires Proper(f) && Reachable(f, s)
    ensures Inv(f, s)
  {
    var s0, actions :| Initial(s0) && Runs(f, s0, actions, s);
    RunKeepsInv(f, s0, actions, s);
  }

  // ---------------------------------------------------------------- freshness

  /** A session returned at t is what the lookup gave for this token at some time in (t - ttl - d, t]. */
  lemma PrincipalIsFresh(f: Config, s: System, call: int)
    requires Proper(f) && Reachable(f, s) && call in s.calls
    requires s.calls[call].phase.Done? && s.calls[call].phase.result.Authenticated?
    ensures var c := s.calls[call];
            LookedUp(f, s.log, c.phase.at - Age(f.ttl) - f.d, c.phase.at, c.token, c.phase.result.session)
  {
    ReachableInv(f, s);
    assert CallOk(f, s, s.calls[call]);
  }

  /** The token's row as it must be to authenticate: unexpired, of an active user of this source. */
  ghost predicate RowAuthenticates(f: Config, snap: Snapshot, token: string, v: Session) {
    && token != "" && f.sha(token) in snap.db.sessions
    && var row := snap.db.sessions[f.sha(token)];
       && snap.at < row.expiresAt && row.userId == v.userId && row.role == v.role
       && row.userId in snap.db.users && snap.db.users[row.userId].active
       && snap.db.users[row.userId].source == f.source
  }

  /** So, by the rows: at some time in that window the token's row was like this. */
  lemma ServedByRows(f: Config, s: System, call: int)
    requires Proper(f) && Reachable(f, s) && call in s.calls
    requires s.calls[call].phase.Done? && s.calls[call].phase.result.Authenticated?
    ensures var c := s.calls[call];
            exists i | 0 <= i < |s.log| ::
              && c.phase.at - Age(f.ttl) - f.d < s.log[i].at <= c.phase.at
              && RowAuthenticates(f, s.log[i], c.token, c.phase.result.session)
  {
    PrincipalIsFresh(f, s, call);
  }

  /** A request that nobody disturbs and that the cache does not know is served exactly if the row is like this. */
  lemma UncachedRequestByRows(f: Config, s: System, call: int) returns (actions: seq<Action>, s': System)
    requires Started(s) && InFlight(f, s, call) && s.calls[call].phase.Begun? && s.calls[call].token != ""
    requires KeyOf(f, s.calls[call].token) !in s.cache.entries
    ensures Runs(f, s, actions, s') && call in s'.calls
    ensures ServedTo(s', s.calls[call].token, call) <==>
            exists v :: RowAuthenticates(f, Present(s), s.calls[call].token, v)
  {
    actions, s' := UndisturbedCall(f, s, call, false);
    var token := s.calls[call].token;
    if LookupNow(f, s, token).Some? {
      assert RowAuthenticates(f, Present(s), token, LookupNow(f, s, token).value);
    }
  }

  // ---------------------------------------------------------------- removed sessions

  /** The session existed and its row is gone. */
  ghost predicate Gone(f: Config, s: System, token: string)
    requires Started(s)
  {
    f.sha(token) in s.origin && f.sha(token) !in Present(s).db.sessions
  }

  /** A request for this token, still in time, has read the session and not yet stored it. */
  ghost predicate CarriedBy(f: Config, s: System, token: string, call: int)
    requires Started(s)
  {
    InFlight(f, s, call) && s.calls[call].token == token && s.calls[call].phase.Found?
  }

  ghost predicate Carried(f: Config, s: System, token: string)
    requires Started(s)
  {
    exists call :: CarriedBy(f, s, token, call)
  }

  ghost predicate Forgotten(f: Config, s: System, token: string)
    requires Started(s)
  {
    Gone(f, s, token) && KeyOf(f, token) !in s.cache.entries && !Carried(f, s, token)
  }

  predicate ServedTo(s: System, token: string, call: int) {
    call in s.calls && s.calls[call].token == token &&
    s.calls[call].phase.Done? && s.calls[call].phase.result.Authenticated?
  }

  lemma StepKeepsGone(f: Config, s: System, a: Action, token: string)
    requires Started(s) && Enabled(f, s, a) && Gone(f, s, token)
    ensures Started(Next(f, s, a)) && Gone(f, Next(f, s, a), token)
  {
  }

  lemma StepKeepsForgotten(f: Config, s: System, a: Action, token: string)
    requires Proper(f) && Started(s) && Enabled(f, s, a) && Forgotten(f, s, token)
    ensures var s' := Next(f, s, a);
            && Started(s') && Forgotten(f, s', token)
            && forall call :: ServedTo(s', token, call) ==> ServedTo(s, token, call)
  {
    var s' := Next(f, s, a);
    StepKeepsGone(f, s, a, token);
    if a.Store? {
      assert !CarriedBy(f, s, token, a.call);
      if KeyOf(f, s.calls[a.call].token) == KeyOf(f, token) {
        SameKeySameToken(f.sha, f.source, s.calls[a.call].token, token);
      }
    }
    forall call ensures !CarriedBy(f, s', token, call) && (ServedTo(s', token, call) ==> ServedTo(s, token, call)) {
      assert !CarriedBy(f, s, token, call);
    }
  }

  lemma {:induction false} ForgottenForGood(f: Config, s: System, actions: seq<Action>, s': System, token: string)
    requires Proper(f) && Started(s) && Forgotten(f, s, token) && Runs(f, s, actions, s')
    ensures forall call :: ServedTo(s', token, call) ==> ServedTo(s, token, call)
    decreases |actions|
  {
    if actions != [] {
      StepKeepsForgotten(f, s, actions[0], token);
      ForgottenForGood(f, Next(f, s, actions[0]), actions[1..], s', token);
    }
  }

  lemma {:induction false} GoneForGood(f: Config, s: System, actions: seq<Action>, s': System, token: string)
    requires Started(s) && Gone(f, s, token) && Runs(f, s, actions, s')
    ensures Started(s') && Gone(f, s', token)
    decreases |actions|
  {
    if actions != [] {
      StepKeepsGone(f, s, actions[0], token);
      GoneForGood(f, Next(f, s, actions[0]), actions[1..], s', token);
    }
  }

  /** In some continuation the request `later` authenticates with the token. */
  ghost predicate ServedAgain(f: Config, s: System, token: string, later: int) {
    exists actions, s' :: Runs(f, s, actions, s') && ServedTo(s', token, later)
  }

  lemma CarriedIsServed(f: Config, s: System, token: string, call: int, later: int)
    requires f.d >= 0 && f.ttl > 0 && Started(s) && CarriedBy(f, s, token, call) && token != "" && later !in s.calls
    ensures ServedAgain(f, s, token, later)
  {
    var s1 := Next(f, s, Store(call));
    var s2 := Next(f, s1, Start(later, token));
    assert Runs(f, s, [], s);
    RunsOn(f, s, [], s, Store(call));
    RunsOn(f, s, [] + [Store(call)], s1, Start(later, token));
    RunsOn(f, s, [] + [Store(call)] + [Start(later, token)], s2, Look(later));
    assert ServedTo(Next(f, s2, Look(later)), token, later);
  }

  /**
  When the row and the cache entry of a session are gone: a request that has not started yet can still
  authenticate with the token exactly if a request in flight carries the session and the cache keeps it.
  */
  lemma RemovalHoldsExactly(f: Config, s: System, token: string, later: int)
    requires Proper(f) && Reachable(f, s) && Started(s) && Gone(f, s, token) && later !in s.calls
    requires KeyOf(f, token) !in s.cache.entries
    ensures ServedAgain(f, s, token, later) <==> f.ttl > 0 && Carried(f, s, token)
  {
    ReachableInv(f, s);
    if f.ttl > 0 && Carried(f, s, token) {
      var call :| CarriedBy(f, s, token, call);
      assert CallOk(f, s, s.calls[call]);
      CarriedIsServed(f, s, token, call, later);
    } else if f.ttl > 0 {
      forall actions, s' | Runs(f, s, actions, s') ensures !ServedTo(s', token, later) {
        ForgottenForGood(f, s, actions, s', token);
      }
    } else {
      forall actions, s' | Runs(f, s, actions, s') ensures !ServedTo(s', token, later) {
        UncachedForGood(f, s, actions, s', token, later);
      }
    }
  }

  /** Without a cache that keeps anything, a request that starts after the row is gone fails. */
  lemma {:induction false} UncachedForGood(f: Config, s: System, actions: seq<Action>, s': System, token: string,
                                           later: int)
    requires Started(s) && Gone(f, s, token) && f.ttl <= 0 && Runs(f, s, actions, s')
    requires !CarriedBy(f, s, token, later) && !ServedTo(s, token, later)
    ensures !ServedTo(s', token, later)
    decreases |actions|
  {
    if actions != [] {
      StepKeepsGone(f, s, actions[0], token);
      UncachedForGood(f, Next(f, s, actions[0]), actions[1..], s', token, later);
    }
  }

  lemma ReachesOn(f: Config, s: System, actions: seq<Action>, s': System)
    requires Reachable(f, s) && Runs(f, s, actions, s')
    ensures Reachable(f, s')
  {
    var s0, before :| Initial(s0) && Runs(f, s0, before, s);
    RunsConcat(f, s0, before, s, actions, s');
  }

  lemma ReachesStep(f: Config, s: System, a: Action)
    requires Reachable(f, s) && Started(s) && Enabled(f, s, a)
    ensures Reachable(f, Next(f, s, a))
  {
    var s0, before :| Initial(s0) && Runs(f, s0, before, s);
    RunsOn(f, s0, before, s, a);
  }

  // ---------------------------------------------------------------- block and logout

  /** BlockUserAndDeleteSessions. */
  function Blocked(db: Db, userId: int): Db
    requires userId in db.users
  {
    Db(map h | h in db.sessions && db.sessions[h].userId != userId :: db.sessions[h],
       db.users[userId := db.users[userId].(active := false)])
  }

  /** The state after the database has changed and nothing else. */
  function WithDb(s: System, db: Db): System
    requires |s.log| > 0
  {
    s.(log := s.log + [Snapshot(Present(s).at, db)])
  }

  /** Removing sessions is one of the changes that the database makes. */
  lemma RemovalIsWorldStep(f: Config, s: System, db: Db)
    requires Started(s)
    requires forall h | h in db.sessions :: h in Present(s).db.sessions && db.sessions[h] == Present(s).db.sessions[h]
    ensures var a := World(Snapshot(Present(s).at, db), map[]); Enabled(f, s, a) && Next(f, s, a) == WithDb(s, db)
  {
    var none: map<string, SessionRow> := map[];
    assert s.origin + none == s.origin;
  }

  /**
  Blocking ends the user's sessions and no other's. While the status stays, no session of the user
  authenticates, not even one that is created later.
  */
  lemma BlockedByRows(f: Config, snap: Snapshot, userId: int, later: Snapshot, token: string, v: Session)
    requires userId in snap.db.users && later.db.users == Blocked(snap.db, userId).users
    ensures v.userId == userId ==> !RowAuthenticates(f, later, token, v)
    ensures v.userId != userId ==>
              (RowAuthenticates(f, Snapshot(snap.at, Blocked(snap.db, userId)), token, v) <==>
               RowAuthenticates(f, snap, token, v))
    ensures forall h | h in Blocked(snap.db, userId).sessions :: snap.db.sessions[h].userId != userId
  {
  }

  /** Every session that authenticates is one that a logout finds, and the logout removes no other. */
  lemma LogoutFindsSession(f: Config, snap: Snapshot, token: string, v: Session)
    requires RowAuthenticates(f, snap, token, v)
    ensures LogoutHits(f, snap.db, token)
    ensures f.sha(token) !in LoggedOut(f, snap.db, token).sessions
    ensures forall h | h in snap.db.sessions && h != f.sha(token) ::
              h in LoggedOut(f, snap.db, token).sessions &&
                  LoggedOut(f, snap.db, token).sessions[h] == snap.db.sessions[h]
  {
  }

  /** InvalidateUser leaves no entry of a session that was created for the user. */
  lemma DropUserDropsToken(f: Config, s: System, userId: int, token: string)
    requires Proper(f) && Inv(f, s) && userId > 0 && Owned(f, s.origin, token, userId)
    ensures KeyOf(f, token) !in Next(f, s, DropUser(userId)).cache.entries
  {
    var key := KeyOf(f, token);
    if key in s.cache.entries {
      assert HasToken(f, s, key, s.cache.entries[key]);
      var other :| EntryOk(f, s, key, s.cache.entries[key], other);
      SameKeySameToken(f.sha, f.source, token, other);
    }
  }

  lemma OriginKept(f: Config, s: System, actions: seq<Action>, s': System, h: string)
    requires h in s.origin && Runs(f, s, actions, s')
    ensures h in s'.origin && s'.origin[h] == s.origin[h]
    decreases |actions|
  {
    if actions != [] {
      OriginKept(f, Next(f, s, actions[0]), actions[1..], s', h);
    }
  }

  lemma GoneAfter(f: Config, s: System, db: Db, between: seq<Action>, s2: System, token: string)
    requires Proper(f) && Reachable(f, s) && Started(s) && Runs(f, WithDb(s, db), between, s2)
    requires forall h | h in db.sessions :: h in Present(s).db.sessions && db.sessions[h] == Present(s).db.sessions[h]
    requires f.sha(token) in s.origin && f.sha(token) !in db.sessions
    ensures Reachable(f, s2) && Started(s2) && Gone(f, s2, token) && Inv(f, s2)
    ensures s2.origin[f.sha(token)] == s.origin[f.sha(token)]
  {
    RemovalIsWorldStep(f, s, db);
    ReachesStep(f, s, World(Snapshot(Present(s).at, db), map[]));
    ReachesOn(f, WithDb(s, db), between, s2);
    GoneForGood(f, WithDb(s, db), between, s2, token);
    OriginKept(f, WithDb(s, db), between, s2, f.sha(token));
    ReachableInv(f, s2);
  }

  /**
  A user is blocked in the database at s, anything happens, and InvalidateUser runs at s2: afterwards no
  new request authenticates with a session the user had, except exactly if a request in flight at s2
  carries that session into a cache that keeps it.
  */
  lemma BlockEndsSessions(f: Config, s: System, userId: int, between: seq<Action>, s2: System, token: string,
                          later: int)
    requires Proper(f) && Reachable(f, s) && Started(s) && userId > 0 && userId in Present(s).db.users
    requires Owned(f, s.origin, token, userId)
    requires Runs(f, WithDb(s, Blocked(Present(s).db, userId)), between, s2) && later !in s2.calls
    ensures Started(s2)
    ensures ServedAgain(f, Next(f, s2, DropUser(userId)), token, later) <==> f.ttl > 0 && Carried(f, s2, token)
  {
    ReachableInv(f, s);
    GoneAfter(f, s, Blocked(Present(s).db, userId), between, s2, token);
    DropUserDropsToken(f, s2, userId, token);
    RemovedAfterDrop(f, s2, DropUser(userId), token, later);
  }

  /** A local invalidation that drops the entry of a token whose row is gone. */
  lemma RemovedAfterDrop(f: Config, s: System, a: Action, token: string, later: int)
    requires Proper(f) && Reachable(f, s) && Started(s) && Gone(f, s, token) && later !in s.calls
    requires (a.DropUser? || a.DropToken?) && KeyOf(f, token) !in Next(f, s, a).cache.entries
    ensures ServedAgain(f, Next(f, s, a), token, later) <==> f.ttl > 0 && Carried(f, s, token)
  {
    var s' := Next(f, s, a);
    ReachesStep(f, s, a);
    RemovalHoldsExactly(f, s', token, later);
    assert forall call :: CarriedBy(f, s', token, call) == CarriedBy(f, s, token, call);
  }

  /** DeleteSessionByTokenHashForSource finds a row to delete. */
  predicate LogoutHits(f: Config, db: Db, token: string) {
    token != "" && f.sha(token) in db.sessions &&
    db.sessions[f.sha(token)].userId in db.users && db.users[db.sessions[f.sha(token)].userId].source == f.source
  }

  function LoggedOut(f: Config, db: Db, token: string): Db {
    db.(sessions := db.sessions - {f.sha(token)})
  }

  /** The same for a logout whose delete found the row: the row goes at s, and InvalidateToken runs at s2. */
  lemma LogoutEndsSession(f: Config, s: System, between: seq<Action>, s2: System, token: string, later: int)
    requires Proper(f) && Reachable(f, s) && Started(s) && LogoutHits(f, Present(s).db, token)
    requires Runs(f, WithDb(s, LoggedOut(f, Present(s).db, token)), between, s2) && later !in s2.calls
    ensures Started(s2)
    ensures ServedAgain(f, Next(f, s2, DropToken(token)), token, later) <==> f.ttl > 0 && Carried(f, s2, token)
  {
    ReachableInv(f, s);
    GoneAfter(f, s, LoggedOut(f, Present(s).db, token), between, s2, token);
    RemovedAfterDrop(f, s2, DropToken(token), token, later);
  }

  /**
  A logout whose delete failed is the invalidation alone, without any change of the database. From every
  state, a request that follows it is answered by the database, which still has the session.
  */
  lemma FailedLogoutChangesNothing(f: Config, s: System, token: string, later: int)
    returns (actions: seq<Action>, s': System)
    requires f.d >= 0 && Started(s) && token != "" && later !in s.calls
    ensures Runs(f, s, actions, s') && forall a | a in actions :: !a.World?
    ensures |actions| > 0 && actions[0] == DropToken(token)
    ensures ServedTo(s', token, later) <==> LookupNow(f, s, token).Some?
    ensures ServedTo(s', token, later) ==> Some(s'.calls[later].phase.result.session) == LookupNow(f, s, token)
  {
    var s1 := Next(f, s, DropToken(token));
    var s2 := Next(f, s1, Start(later, token));
    assert Runs(f, s, [], s);
    RunsOn(f, s, [], s, DropToken(token));
    RunsOn(f, s, [] + [DropToken(token)], s1, Start(later, token));
    var first := [] + [DropToken(token)] + [Start(later, token)];
    var rest;
    rest, s' := UndisturbedCall(f, s2, later, false);
    RunsConcat(f, s, first, s2, rest, s');
    actions := first + rest;
  }

  /** A first request that has read its session. */
  lemma FirstRequestFinds(f: Config, snap: Snapshot, token: string, call: int)
    returns (actions: seq<Action>, s: System)
    requires Proper(f) && Lookup(f.sha, f.source, snap.db, snap.at, token).Some?
    ensures Runs(f, System([snap], Empty(), snap.db.sessions, map[]), actions, s) && s.log == [snap]
    ensures s.calls.Keys == {call} && CarriedBy(f, s, token, call)
  {
    var s0 := System([snap], Empty(), snap.db.sessions, map[]);
    var s1 := Next(f, s0, Start(call, token));
    var s2 := Next(f, s1, Look(call));
    assert Runs(f, s0, [], s0);
    RunsOn(f, s0, [], s0, Start(call, token));
    RunsOn(f, s0, [] + [Start(call, token)], s1, Look(call));
    RunsOn(f, s0, [] + [Start(call, token)] + [Look(call)], s2, Fetch(call, false));
    actions := [] + [Start(call, token)] + [Look(call)] + [Fetch(call, false)];
    s := Next(f, s2, Fetch(call, false));
  }

  /**
  For every session that the lookup finds there is such a request: it has read the session when the user is
  blocked and the cache invalidated, and a later request authenticates from what it stores.
  */
  lemma InFlightRequestOutlivesBlock(f: Config, snap: Snapshot, token: string, call: int, later: int)
    returns (actions: seq<Action>, s: System)
    requires Proper(f) && f.ttl > 0 && call != later
    requires Lookup(f.sha, f.source, snap.db, snap.at, token).Some?
    ensures var userId := snap.db.sessions[f.sha(token)].userId;
            && Runs(f, System([snap], Empty(), snap.db.sessions, map[]), actions, s) && s.log == [snap]
            && ServedAgain(f, Next(f, WithDb(s, Blocked(snap.db, userId)), DropUser(userId)), token, later)
  {
    var userId := snap.db.sessions[f.sha(token)].userId;
    actions, s := FirstRequestFinds(f, snap, token, call);
    var s1 := Next(f, WithDb(s, Blocked(snap.db, userId)), DropUser(userId));
    assert CarriedBy(f, s1, token, call);
    CarriedIsServed(f, s1, token, call, later);
  }
}
