/**
Many replicas over one database, with authentications in flight.

Nothing is atomic here except a single cache access or a single query: any number of calls on any
number of replicas interleave, the tables change under them in any way, and local invalidations
strike at any point. The one assumption is that a call takes at most `d` from start to end. The
result bounds how stale a returned principal can be; with d == 0 the bounds are twenty seconds for
the key and ten for its user.
*/
module ApiKeyCluster {
  import opened Options
  import opened TtlCache
  import opened ApiKeys

  /** The database at one instant. The last snapshot of a log is the present. */
  datatype Snapshot = Snapshot(at: int, today: int, db: Db)

  datatype Phase =
    | Begun
    | VerifiedMissed
    | CandidatesMissed
    | Fetched(q: seq<Candidate>)
    | Scanning(q: seq<Candidate>)
    | Matched(p: Principal)
    | Done(result: Result, at: int)

  datatype Call = Call(replica: int, text: string, source: string, startedAt: int, phase: Phase)

  datatype Cluster = Cluster(log: seq<Snapshot>, replicas: map<int, Caches>, calls: map<int, Call>)

  datatype Action =
    | World(snap: Snapshot)
    | Join(replica: int)
    | DropCandidates(replica: int, prefix: string)
    | DropUser(replica: int, userId: int)
    | DropLists(replica: int)
    | DropVerified(replica: int)
    | Start(call: int, replica: int, text: string, source: string)
    | LookVerified(call: int)
    | LookCandidates(call: int)
    | Query(call: int, answer: Answer<seq<Candidate>>)
    | StoreCandidates(call: int)
    | ScanOne(call: int, active: Answer<bool>)
    | StoreVerified(call: int)

  ghost predicate Started(s: Cluster) {
    |s.log| > 0
  }

  function Present(s: Cluster): Snapshot
    requires |s.log| > 0
  {
    s.log[|s.log| - 1]
  }

  function KeyOf(c: Call): CandidateKey
    requires |c.text| >= API_KEY_PREFIX_LENGTH
  {
    CandidateKey(c.text[..API_KEY_PREFIX_LENGTH], c.source)
  }

  /** The call exists, is in time and runs on a replica that exists. */
  ghost predicate InFlight(s: Cluster, d: int, call: int)
    requires Started(s)
  {
    call in s.calls && s.calls[call].replica in s.replicas &&
    |s.calls[call].text| >= API_KEY_PREFIX_LENGTH && Present(s).at <= s.calls[call].startedAt + d
  }

  ghost predicate Enabled(w: Crypto, d: int, s: Cluster, a: Action)
    requires Started(s)
  {
    var now := Present(s);
    match a
    case World(snap) => now.at <= snap.at
    case Join(replica) => replica !in s.replicas
    case DropCandidates(replica, _) => replica in s.replicas
    case DropUser(replica, _) => replica in s.replicas
    case DropLists(replica) => replica in s.replicas
    case DropVerified(replica) => replica in s.replicas
    case Start(call, replica, text, source) =>
      call !in s.calls && replica in s.replicas && WellFormedRequest(text, source)
    case LookVerified(call) => InFlight(s, d, call) && s.calls[call].phase.Begun?
    case LookCandidates(call) => InFlight(s, d, call) && s.calls[call].phase.VerifiedMissed?
    case Query(call, answer) =>
      InFlight(s, d, call) && s.calls[call].phase.CandidatesMissed? &&
      (answer.Got? ==> IsAnswer(now.db, now.today, KeyOf(s.calls[call]), answer.value))
    case StoreCandidates(call) => InFlight(s, d, call) && s.calls[call].phase.Fetched?
    case ScanOne(call, active) =>
      InFlight(s, d, call) && s.calls[call].phase.Scanning? &&
      (active.Got? && s.calls[call].phase.q != [] ==>
          active.value == UserActive(now.db, s.calls[call].phase.q[0].userId))
    case StoreVerified(call) => InFlight(s, d, call) && s.calls[call].phase.Matched?
  }

  function Advance(s: Cluster, call: int, phase: Phase): Cluster
    requires call in s.calls
  {
    s.(calls := s.calls[call := s.calls[call].(phase := phase)])
  }

  ghost function Next(w: Crypto, d: int, s: Cluster, a: Action): Cluster
    requires Started(s) && Enabled(w, d, s, a)
  {
    var now := Present(s).at;
    match a
    case World(snap) => s.(log := s.log + [snap])
    case Join(r) => s.(replicas := s.replicas[r := Caches(Empty(), Empty())])
    case DropCandidates(r, prefix) => s.(replicas := s.replicas[r := InvalidateCandidatesStep(s.replicas[r], prefix)])
    case DropUser(r, userId) => s.(replicas := s.replicas[r := InvalidateUserStep(s.replicas[r], userId)])
    case DropLists(r) =>
      s.(replicas := s.replicas[r := s.replicas[r].(candidates := ClearStep(s.replicas[r].candidates))])
    case DropVerified(r) =>
      s.(replicas := s.replicas[r := s.replicas[r].(verified := ClearStep(s.replicas[r].verified))])
    case Start(call, r, text, source) => s.(calls := s.calls[call := Call(r, text, source, now, Begun)])
    case LookVerified(call) =>
      var c := s.calls[call];
      var caches := s.replicas[c.replica];
      var read := GetStep(caches.verified, API_KEY_CACHE_TTL, VerifiedKey(w.digest(c.text), c.source), now);
      Advance(s, call, if read.answer.Some? then Done(Authenticated(read.answer.value), now) else VerifiedMissed)
        .(replicas := s.replicas[c.replica := caches.(verified := read.state)])
    case LookCandidates(call) =>
      var c := s.calls[call];
      var caches := s.replicas[c.replica];
      var read := GetStep(caches.candidates, API_KEY_CACHE_TTL, KeyOf(c), now);
      Advance(s, call, if read.answer.Some? then Scanning(read.answer.value) else CandidatesMissed)
        .(replicas := s.replicas[c.replica := caches.(candidates := read.state)])
    case Query(call, answer) =>
      Advance(s, call, if answer.Failed? then Done(BackendError, now) else Fetched(answer.value))
    case StoreCandidates(call) =>
      var c := s.calls[call];
      var caches := s.replicas[c.replica];
      Advance(s, call, Scanning(c.phase.q))
        .(replicas := s.replicas[c.replica :=
            caches.(candidates := SetStep(caches.candidates, API_KEY_CACHE_TTL, KeyOf(c), c.phase.q, now))])
    case ScanOne(call, active) =>
      var c := s.calls[call];
      var q := c.phase.q;
      Advance(s, call,
        if q == [] then Done(InvalidCredential, now)
        else if !w.verify(q[0].keyHash, c.text) then Scanning(q[1..])
        else if active.Failed? then Done(BackendError, now)
        else if active.value then Matched(Principal(q[0].userId, q[0].id))
        else Scanning(q[1..]))
    case StoreVerified(call) =>
      var c := s.calls[call];
      var caches := s.replicas[c.replica];
      var vk := VerifiedKey(w.digest(c.text), c.source);
      Advance(s, call, Done(Authenticated(c.phase.p), now))
        .(replicas := s.replicas[c.replica :=
            caches.(verified := SetStep(caches.verified, API_KEY_CACHE_TTL, vk, c.phase.p, now))])
  }

  ghost predicate Initial(s: Cluster) {
    |s.log| == 1 && s.replicas == map[] && s.calls == map[]
  }

  /** The actions lead from s to s'. */
  ghost predicate Runs(w: Crypto, d: int, s: Cluster, actions: seq<Action>, s': Cluster)
    decreases |actions|
  {
    if actions == [] then s' == s
    else Started(s) && Enabled(w, d, s, actions[0]) && Runs(w, d, Next(w, d, s, actions[0]), actions[1..], s')
  }

  // ---------------------------------------------------------------- what has been seen, and when

  /** The plaintext and its source select this key for this owner. The status of the owner is not asked. */
  ghost predicate Entitled(w: Crypto, snap: Snapshot, text: string, source: string, p: Principal) {
    |text| >= API_KEY_PREFIX_LENGTH &&
    Selected(snap.db, snap.today, CandidateKey(text[..API_KEY_PREFIX_LENGTH], source), p.apiKeyId) &&
    w.verify(snap.db.keys[p.apiKeyId].hash, text) && snap.db.keys[p.apiKeyId].userId == p.userId
  }

  ghost predicate KeySeen(w: Crypto, log: seq<Snapshot>, after: int, upTo: int, text: string, source: string,
                          p: Principal) {
    exists i | 0 <= i < |log| :: after < log[i].at <= upTo && Entitled(w, log[i], text, source, p)
  }

  ghost predicate UserSeen(log: seq<Snapshot>, after: int, upTo: int, userId: int) {
    exists i | 0 <= i < |log| :: after < log[i].at <= upTo && UserActive(log[i].db, userId)
  }

  ghost predicate ListSeen(log: seq<Snapshot>, after: int, key: CandidateKey, q: seq<Candidate>) {
    exists i | 0 <= i < |log| :: after < log[i].at && IsAnswer(log[i].db, log[i].today, key, q)
  }

  ghost predicate CandidateSeen(log: seq<Snapshot>, after: int, key: CandidateKey, c: Candidate) {
    exists i | 0 <= i < |log| ::
      after < log[i].at && Selected(log[i].db, log[i].today, key, c.id) && c == CandidateOf(log[i].db, c.id)
  }

  // ---------------------------------------------------------------- the invariant

  ghost predicate CandidatesOk(d: int, log: seq<Snapshot>, caches: Caches) {
    forall key | key in caches.candidates.entries ::
      var e := caches.candidates.entries[key];
      key.source in SOURCES && ListSeen(log, e.expiresAt - API_KEY_CACHE_TTL - d - 1, key, e.value)
  }

  ghost predicate PrincipalOk(w: Crypto, d: int, log: seq<Snapshot>, vk: VerifiedKey, e: Entry<Principal>, text: string)
    requires Rising(log)
  {
    && w.digest(text) == vk.digest
    && KeySeen(w, log, e.expiresAt - 2 * API_KEY_CACHE_TTL - 2 * d, log[|log| - 1].at, text, vk.source, e.value)
    && UserSeen(log, e.expiresAt - API_KEY_CACHE_TTL - d - 1, log[|log| - 1].at, e.value.userId)
  }

  ghost predicate HasText(w: Crypto, d: int, log: seq<Snapshot>, vk: VerifiedKey, e: Entry<Principal>)
    requires Rising(log)
  {
    exists text :: PrincipalOk(w, d, log, vk, e, text)
  }

  ghost predicate VerifiedOk(w: Crypto, d: int, log: seq<Snapshot>, caches: Caches)
    requires Rising(log)
  {
    forall vk | vk in caches.verified.entries :: HasText(w, d, log, vk, caches.verified.entries[vk])
  }

  /** What the statement promises of a principal returned at time t. */
  ghost predicate Fresh(w: Crypto, d: int, log: seq<Snapshot>, text: string, source: string, p: Principal, t: int) {
    && KeySeen(w, log, t - 2 * API_KEY_CACHE_TTL - 2 * d, t, text, source, p)
    && UserSeen(log, t - API_KEY_CACHE_TTL - d, t, p.userId)
  }

  ghost predicate CallOk(w: Crypto, d: int, log: seq<Snapshot>, c: Call)
    requires Rising(log)
  {
    var now := log[|log| - 1].at;
    && WellFormedRequest(c.text, c.source) && c.startedAt <= now
    && match c.phase
       case Begun => true
       case VerifiedMissed => true
       case CandidatesMissed => true
       case Fetched(q) => ListSeen(log, c.startedAt - 1, KeyOf(c), q)
       case Scanning(q) => forall k | k in q :: CandidateSeen(log, c.startedAt - API_KEY_CACHE_TTL - d, KeyOf(c), k)
       case Matched(p) =>
         KeySeen(w, log, c.startedAt - API_KEY_CACHE_TTL - d, now, c.text, c.source, p) &&
         UserSeen(log, c.startedAt - 1, now, p.userId)
       case Done(result, t) => result.Authenticated? ==> Fresh(w, d, log, c.text, c.source, result.principal, t)
  }

  ghost predicate Rising(log: seq<Snapshot>) {
    |log| > 0 && forall i | 0 <= i < |log| :: log[i].at <= log[|log| - 1].at
  }

  ghost predicate Inv(w: Crypto, d: int, s: Cluster) {
    && Rising(s.log)
    && (forall r | r in s.replicas :: CandidatesOk(d, s.log, s.replicas[r]) && VerifiedOk(w, d, s.log, s.replicas[r]))
    && (forall c | c in s.calls :: CallOk(w, d, s.log, s.calls[c]))
  }

  // ---------------------------------------------------------------- time passes

  lemma CandidatesSurviveWorld(d: int, log: seq<Snapshot>, snap: Snapshot, caches: Caches)
    requires CandidatesOk(d, log, caches)
    ensures CandidatesOk(d, log + [snap], caches)
  {
    var more := log + [snap];
    assert forall i | 0 <= i < |log| :: more[i] == log[i];
    forall key | key in caches.candidates.entries
      ensures var e := caches.candidates.entries[key];
              ListSeen(more, e.expiresAt - API_KEY_CACHE_TTL - d - 1, key, e.value)
    {
      var e := caches.candidates.entries[key];
      assert ListSeen(log, e.expiresAt - API_KEY_CACHE_TTL - d - 1, key, e.value);
    }
  }

  lemma PrincipalSurvivesWorld(w: Crypto, d: int, log: seq<Snapshot>, snap: Snapshot, vk: VerifiedKey,
                               e: Entry<Principal>)
    requires Rising(log) && log[|log| - 1].at <= snap.at && HasText(w, d, log, vk, e)
    ensures Rising(log + [snap]) && HasText(w, d, log + [snap], vk, e)
  {
    var more := log + [snap];
    assert forall i | 0 <= i < |log| :: more[i] == log[i];
    var text :| PrincipalOk(w, d, log, vk, e, text);
    assert PrincipalOk(w, d, more, vk, e, text);
  }

  lemma ReplicaSurvivesWorld(w: Crypto, d: int, log: seq<Snapshot>, snap: Snapshot, caches: Caches)
    requires Rising(log) && log[|log| - 1].at <= snap.at
    requires CandidatesOk(d, log, caches) && VerifiedOk(w, d, log, caches)
    ensures Rising(log + [snap])
    ensures CandidatesOk(d, log + [snap], caches) && VerifiedOk(w, d, log + [snap], caches)
  {
    CandidatesSurviveWorld(d, log, snap, caches);
    assert Rising(log + [snap]);
    forall vk | vk in caches.verified.entries ensures HasText(w, d, log + [snap], vk, caches.verified.entries[vk]) {
      PrincipalSurvivesWorld(w, d, log, snap, vk, caches.verified.entries[vk]);
    }
  }

  lemma CallSurvivesWorld(w: Crypto, d: int, log: seq<Snapshot>, snap: Snapshot, c: Call)
    requires Rising(log) && log[|log| - 1].at <= snap.at && CallOk(w, d, log, c)
    ensures Rising(log + [snap]) && CallOk(w, d, log + [snap], c)
  {
    var more := log + [snap];
    assert forall i | 0 <= i < |log| :: more[i] == log[i];
    if c.phase.Scanning? {
      forall k | k in c.phase.q ensures CandidateSeen(more, c.startedAt - API_KEY_CACHE_TTL - d, KeyOf(c), k) {
        assert CandidateSeen(log, c.startedAt - API_KEY_CACHE_TTL - d, KeyOf(c), k);
      }
    }
  }

  lemma WorldKeepsInv(w: Crypto, d: int, s: Cluster, snap: Snapshot)
    requires Inv(w, d, s) && Present(s).at <= snap.at
    ensures Inv(w, d, s.(log := s.log + [snap]))
  {
    forall r | r in s.replicas
      ensures CandidatesOk(d, s.log + [snap], s.replicas[r]) && VerifiedOk(w, d, s.log + [snap], s.replicas[r])
    {
      ReplicaSurvivesWorld(w, d, s.log, snap, s.replicas[r]);
    }
    forall c | c in s.calls ensures CallOk(w, d, s.log + [snap], s.calls[c]) {
      CallSurvivesWorld(w, d, s.log, snap, s.calls[c]);
    }
  }

  // ---------------------------------------------------------------- steps of a call

  /** A step of a call changes that call and at most the caches of its replica. */
  lemma CallStepKeepsInv(w: Crypto, d: int, s: Cluster, s': Cluster, call: int)
    requires Inv(w, d, s) && call in s.calls && s.calls[call].replica in s.replicas
    requires s'.log == s.log && call in s'.calls && s'.calls == s.calls[call := s'.calls[call]]
    requires var r := s.calls[call].replica; r in s'.replicas && s'.replicas == s.replicas[r := s'.replicas[r]]
    requires CandidatesOk(d, s.log, s'.replicas[s.calls[call].replica])
    requires VerifiedOk(w, d, s.log, s'.replicas[s.calls[call].replica])
    requires CallOk(w, d, s.log, s'.calls[call])
    ensures Inv(w, d, s')
  {
  }

  /** A hit in the verified cache answers with a principal that is fresh for the call's own text. */
  lemma HitIsFresh(w: Crypto, d: int, log: seq<Snapshot>, c: Call, e: Entry<Principal>)
    requires d >= 0 && InjectiveDigest(w) && Rising(log) && log[|log| - 1].at < e.expiresAt
    requires HasText(w, d, log, VerifiedKey(w.digest(c.text), c.source), e)
    ensures Fresh(w, d, log, c.text, c.source, e.value, log[|log| - 1].at)
  {
    var vk := VerifiedKey(w.digest(c.text), c.source);
    var text :| PrincipalOk(w, d, log, vk, e, text);
    assert text == c.text;
  }

  lemma VerifiedShrinks(w: Crypto, d: int, log: seq<Snapshot>, before: Caches, after: Caches)
    requires Rising(log) && VerifiedOk(w, d, log, before)
    requires forall vk | vk in after.verified.entries ::
               vk in before.verified.entries && after.verified.entries[vk] == before.verified.entries[vk]
    ensures VerifiedOk(w, d, log, after)
  {
  }

  /** A call that has looked into the verified cache is done with a fresh principal or goes on. */
  lemma LookedCallOk(w: Crypto, d: int, log: seq<Snapshot>, caches: Caches, c: Call)
    requires d >= 0 && InjectiveDigest(w) && Rising(log) && VerifiedOk(w, d, log, caches) && CallOk(w, d, log, c)
    ensures var now := log[|log| - 1].at;
            var hit := Peek(caches.verified, API_KEY_CACHE_TTL, VerifiedKey(w.digest(c.text), c.source), now);
            CallOk(w, d, log, c.(phase := if hit.Some? then Done(Authenticated(hit.value), now) else VerifiedMissed))
  {
    var vk := VerifiedKey(w.digest(c.text), c.source);
    if Peek(caches.verified, API_KEY_CACHE_TTL, vk, log[|log| - 1].at).Some? {
      HitIsFresh(w, d, log, c, caches.verified.entries[vk]);
    }
  }

  lemma LookVerifiedKeepsInv(w: Crypto, d: int, s: Cluster, a: Action)
    requires d >= 0 && InjectiveDigest(w) && Inv(w, d, s) && a.LookVerified? && Enabled(w, d, s, a)
    ensures Inv(w, d, Next(w, d, s, a))
  {
    var s' := Next(w, d, s, a);
    var r := s.calls[a.call].replica;
    LookedCallOk(w, d, s.log, s.replicas[r], s.calls[a.call]);
    VerifiedShrinks(w, d, s.log, s.replicas[r], s'.replicas[r]);
    assert CandidatesOk(d, s.log, s.replicas[r]);
    CallStepKeepsInv(w, d, s, s', a.call);
  }

  lemma LookCandidatesKeepsInv(w: Crypto, d: int, s: Cluster, a: Action)
    requires d >= 0 && Inv(w, d, s) && a.LookCandidates? && Enabled(w, d, s, a)
    ensures Inv(w, d, Next(w, d, s, a))
  {
  }

  lemma QueryKeepsInv(w: Crypto, d: int, s: Cluster, a: Action)
    requires d >= 0 && Inv(w, d, s) && a.Query? && Enabled(w, d, s, a)
    ensures Inv(w, d, Next(w, d, s, a))
  {
  }

  lemma StoreCandidatesKeepsInv(w: Crypto, d: int, s: Cluster, a: Action)
    requires d >= 0 && Inv(w, d, s) && a.StoreCandidates? && Enabled(w, d, s, a)
    ensures Inv(w, d, Next(w, d, s, a))
  {
  }

  /** A candidate that verifies and whose owner is active now makes a matched call. */
  lemma MatchIsSeen(w: Crypto, d: int, log: seq<Snapshot>, c: Call, k: Candidate)
    requires Rising(log) && WellFormedRequest(c.text, c.source) && c.startedAt <= log[|log| - 1].at
    requires CandidateSeen(log, c.startedAt - API_KEY_CACHE_TTL - d, KeyOf(c), k)
    requires w.verify(k.keyHash, c.text) && UserActive(log[|log| - 1].db, k.userId)
    ensures CallOk(w, d, log, c.(phase := Matched(Principal(k.userId, k.id))))
  {
  }

  lemma ScanOneKeepsInv(w: Crypto, d: int, s: Cluster, a: Action)
    requires d >= 0 && Inv(w, d, s) && a.ScanOne? && Enabled(w, d, s, a)
    ensures Inv(w, d, Next(w, d, s, a))
  {
    var c := s.calls[a.call];
    var q := c.phase.q;
    assert CallOk(w, d, s.log, c);
    if q != [] {
      assert q[0] in q && forall k | k in q[1..] :: k in q;
      if w.verify(q[0].keyHash, c.text) && a.active == Got(true) {
        MatchIsSeen(w, d, s.log, c, q[0]);
      }
    }
    CallStepKeepsInv(w, d, s, Next(w, d, s, a), a.call);
  }

  /** What a matched call in time stores and returns is fresh. */
  lemma MatchedIsFresh(w: Crypto, d: int, s: Cluster, call: int)
    requires d >= 0 && Inv(w, d, s) && InFlight(s, d, call) && s.calls[call].phase.Matched?
    ensures var c := s.calls[call];
            var p, now := c.phase.p, Present(s).at;
            && Fresh(w, d, s.log, c.text, c.source, p, now)
            && HasText(w, d, s.log, VerifiedKey(w.digest(c.text), c.source), Entry(p, now + API_KEY_CACHE_TTL))
  {
    var c := s.calls[call];
    var p, now := c.phase.p, Present(s).at;
    assert CallOk(w, d, s.log, c);
    assert KeySeen(w, s.log, now - API_KEY_CACHE_TTL - 2 * d, now, c.text, c.source, p);
    assert UserSeen(s.log, now - d - 1, now, p.userId);
    assert PrincipalOk(w, d, s.log, VerifiedKey(w.digest(c.text), c.source), Entry(p, now + API_KEY_CACHE_TTL), c.text);
  }

  lemma StoreVerifiedKeepsInv(w: Crypto, d: int, s: Cluster, a: Action)
    requires d >= 0 && Inv(w, d, s) && a.StoreVerified? && Enabled(w, d, s, a)
    ensures Inv(w, d, Next(w, d, s, a))
  {
    var s' := Next(w, d, s, a);
    var c := s.calls[a.call];
    assert CallOk(w, d, s.log, c);
    MatchedIsFresh(w, d, s, a.call);
    assert CandidatesOk(d, s.log, s.replicas[c.replica]) && VerifiedOk(w, d, s.log, s.replicas[c.replica]);
    assert VerifiedOk(w, d, s.log, s'.replicas[c.replica]);
    CallStepKeepsInv(w, d, s, s', a.call);
  }

  lemma StepKeepsInv(w: Crypto, d: int, s: Cluster, a: Action)
    requires d >= 0 && InjectiveDigest(w) && Inv(w, d, s) && Enabled(w, d, s, a)
    ensures Inv(w, d, Next(w, d, s, a))
  {
    match a
    case World(snap) => WorldKeepsInv(w, d, s, snap);
    case Join(_) =>
    case DropCandidates(_, _) =>
    case DropUser(_, _) =>
    case DropLists(_) =>
    case DropVerified(_) =>
    case Start(_, _, _, _) =>
    case LookVerified(_) => LookVerifiedKeepsInv(w, d, s, a);
    case LookCandidates(_) => LookCandidatesKeepsInv(w, d, s, a);
    case Query(_, _) => QueryKeepsInv(w, d, s, a);
    case StoreCandidates(_) => StoreCandidatesKeepsInv(w, d, s, a);
    case ScanOne(_, _) => ScanOneKeepsInv(w, d, s, a);
    case StoreVerified(_) => StoreVerifiedKeepsInv(w, d, s, a);
  }

  lemma {:induction false} RunKeepsInv(w: Crypto, d: int, s: Cluster, actions: seq<Action>, s': Cluster)
    requires d >= 0 && InjectiveDigest(w) && Inv(w, d, s) && Runs(w, d, s, actions, s')
    ensures Inv(w, d, s')
    decreases |actions|
  {
    if actions != [] {
      StepKeepsInv(w, d, s, actions[0]);
      RunKeepsInv(w, d, Next(w, d, s, actions[0]), actions[1..], s');
    }
  }

  lemma ReachableInv(w: Crypto, d: int, s0: Cluster, actions: seq<Action>, s: Cluster)
    requires d >= 0 && InjectiveDigest(w) && Initial(s0) && Runs(w, d, s0, actions, s)
    ensures Inv(w, d, s)
  {
    RunKeepsInv(w, d, s0, actions, s);
  }

  // ---------------------------------------------------------------- an undisturbed call

  /** From s, the call alone takes some steps at one instant and ends in s'. */
  ghost predicate Alone(w: Crypto, d: int, s: Cluster, actions: seq<Action>, s': Cluster, call: int) {
    Runs(w, d, s, actions, s') && forall a | a in actions :: CallOf(a) == Some(call)
  }

  function CallOf(a: Action): Option<int> {
    match a
    case LookVerified(call) => Some(call)
    case LookCandidates(call) => Some(call)
    case Query(call, _) => Some(call)
    case StoreCandidates(call) => Some(call)
    case ScanOne(call, _) => Some(call)
    case StoreVerified(call) => Some(call)
    case _ => None
  }

  lemma Prepend(w: Crypto, d: int, s: Cluster, a: Action, actions: seq<Action>, s': Cluster, call: int)
    requires Started(s) && Enabled(w, d, s, a) && CallOf(a) == Some(call)
    requires Alone(w, d, Next(w, d, s, a), actions, s', call)
    ensures Alone(w, d, s, [a] + actions, s', call)
  {
  }

  /** What the call leaves behind: its result, and the caches of its replica. */
  ghost predicate EndsAs(s: Cluster, s': Cluster, call: int, caches: Caches, result: Result)
    requires Started(s) && call in s.calls
  {
    var c := s.calls[call];
    s' == s.(calls := s.calls[call := c.(phase := Done(result, Present(s).at))],
             replicas := s.replicas[c.replica := caches])
  }

  lemma {:induction false} ScanAlone(w: Crypto, d: int, s: Cluster, call: int, b: Backend)
    returns (actions: seq<Action>, s': Cluster)
    requires Started(s) && InFlight(s, d, call) && s.calls[call].phase.Scanning?
    requires Faithful(b, Present(s).db, Present(s).today)
    ensures Alone(w, d, s, actions, s', call)
    ensures EndsAsScan(w, b, s, s', call, s.replicas[s.calls[call].replica], s.calls[call].phase.q)
    decreases |s.calls[call].phase.q|
  {
    var c := s.calls[call];
    var q := c.phase.q;
    var first := ScanOne(call, if q == [] then Failed else b.userActive(q[0].userId));
    var s1 := Next(w, d, s, first);
    assert s.replicas[c.replica := s.replicas[c.replica]] == s.replicas;
    var phase := s1.calls[call].phase;
    if phase.Scanning? {
      actions, s' := ScanAlone(w, d, s1, call, b);
    } else if phase.Matched? {
      s' := Next(w, d, s1, StoreVerified(call));
      Prepend(w, d, s1, StoreVerified(call), [], s', call);
      actions := [StoreVerified(call)] + [];
    } else {
      actions, s' := [], s1;
    }
    Prepend(w, d, s, first, actions, s', call);
    actions := [first] + actions;
  }

  /** The caches and the result of a scan over q that starts with these caches. */
  ghost predicate EndsAsScan(w: Crypto, b: Backend, s: Cluster, s': Cluster, call: int, caches: Caches,
                             q: seq<Candidate>)
    requires Started(s) && call in s.calls
  {
    var c := s.calls[call];
    var result := Scan(w, b, q, c.text);
    var vk := VerifiedKey(w.digest(c.text), c.source);
    EndsAs(s, s', call,
      if result.Authenticated?
      then caches.(verified := SetStep(caches.verified, API_KEY_CACHE_TTL, vk, result.principal, Present(s).at))
      else caches,
      result)
  }

  lemma QueryAlone(w: Crypto, d: int, s: Cluster, call: int, b: Backend)
    returns (actions: seq<Action>, s': Cluster)
    requires Started(s) && InFlight(s, d, call) && s.calls[call].phase.CandidatesMissed?
    requires Faithful(b, Present(s).db, Present(s).today)
    ensures Alone(w, d, s, actions, s', call)
    ensures var c := s.calls[call];
            var caches := s.replicas[c.replica];
            match b.candidates(KeyOf(c))
            case Failed => EndsAs(s, s', call, caches, BackendError)
            case Got(q) =>
              EndsAsScan(w, b, s, s', call,
                caches.(candidates := SetStep(caches.candidates, API_KEY_CACHE_TTL, KeyOf(c), q, Present(s).at)), q)
  {
    var c := s.calls[call];
    var ask := Query(call, b.candidates(KeyOf(c)));
    var s1 := Next(w, d, s, ask);
    if ask.answer.Failed? {
      actions, s' := [], s1;
      assert s.replicas[c.replica := s.replicas[c.replica]] == s.replicas;
    } else {
      var s2 := Next(w, d, s1, StoreCandidates(call));
      actions, s' := ScanAlone(w, d, s2, call, b);
      Prepend(w, d, s1, StoreCandidates(call), actions, s', call);
      actions := [StoreCandidates(call)] + actions;
    }
    Prepend(w, d, s, ask, actions, s', call);
    actions := [ask] + actions;
  }

  lemma CandidatesAlone(w: Crypto, d: int, s: Cluster, call: int, b: Backend)
    returns (actions: seq<Action>, s': Cluster)
    requires Started(s) && InFlight(s, d, call) && s.calls[call].phase.VerifiedMissed?
    requires Faithful(b, Present(s).db, Present(s).today)
    ensures Alone(w, d, s, actions, s', call)
    ensures var c := s.calls[call];
            var caches := s.replicas[c.replica];
            var found := FindCandidatesStep(caches.candidates, b, KeyOf(c), Present(s).at);
            match found.answer
            case Failed => EndsAs(s, s', call, caches.(candidates := found.cache), BackendError)
            case Got(q) => EndsAsScan(w, b, s, s', call, caches.(candidates := found.cache), q)
  {
    var look := LookCandidates(call);
    var s1 := Next(w, d, s, look);
    if s1.calls[call].phase.Scanning? {
      actions, s' := ScanAlone(w, d, s1, call, b);
    } else {
      actions, s' := QueryAlone(w, d, s1, call, b);
    }
    Prepend(w, d, s, look, actions, s', call);
    actions := [look] + actions;
  }

  /** The fine-grained call, left alone, is the authentication of ApiKeys: same result, same caches. */
  lemma UndisturbedCall(w: Crypto, d: int, s: Cluster, call: int, b: Backend)
    returns (actions: seq<Action>, s': Cluster)
    requires Started(s) && InFlight(s, d, call) && s.calls[call].phase.Begun?
    requires WellFormedRequest(s.calls[call].text, s.calls[call].source)
    requires Faithful(b, Present(s).db, Present(s).today)
    ensures Alone(w, d, s, actions, s', call)
    ensures var c := s.calls[call];
            var step := AuthenticateStep(s.replicas[c.replica], w, b, c.text, c.source, Present(s).at);
            EndsAs(s, s', call, step.caches, step.result)
  {
    var look := LookVerified(call);
    var s1 := Next(w, d, s, look);
    if s1.calls[call].phase.Done? {
      actions, s' := [], s1;
    } else {
      actions, s' := CandidatesAlone(w, d, s1, call, b);
    }
    Prepend(w, d, s, look, actions, s', call);
    actions := [look] + actions;
  }

  // ---------------------------------------------------------------- the results

  /**
  In every state of every run, a call that returned a principal at time t names a key that the
  candidate query selected for this plaintext at some time in (t - 20s - 2d, t] and an owner that was
  active at some time in (t - 10s - d, t].
  */
  lemma ReturnedPrincipalIsFresh(w: Crypto, d: int, s0: Cluster, actions: seq<Action>, s: Cluster, call: int)
    requires d >= 0 && InjectiveDigest(w) && Initial(s0) && Runs(w, d, s0, actions, s)
    requires call in s.calls && s.calls[call].phase.Done? && s.calls[call].phase.result.Authenticated?
    ensures var c := s.calls[call];
            var t, p := c.phase.at, c.phase.result.principal;
            && KeySeen(w, s.log, t - 20 * SECOND - 2 * d, t, c.text, c.source, p)
            && UserSeen(s.log, t - 10 * SECOND - d, t, p.userId)
  {
    ReachableInv(w, d, s0, actions, s);
    assert CallOk(w, d, s.log, s.calls[call]);
  }
}
