/**
One replica that owns the key and user tables: every run of Create, Revoke, SetStatus with
InvalidateUser, user provisioning, authentication and clock steps, each taken atomically.

The cached answer is compared with `Accepted`, which reads the tables alone. They agree except
in one family: a key whose expiry date has passed while the caches still name it.
*/
module ApiKeyRuns {
  import opened Options
  import opened TtlCache
  import opened ApiKeys

  /** now is the replica's clock, today the CURRENT_DATE of the database. */
  datatype System = System(db: Db, caches: Caches, now: int, today: int)

  datatype Action =
    | Wait(now: int, today: int)
    | Provision(userId: int, source: string)
    | Create(userId: int, text: string, hash: string, expiresAt: Option<int>, newId: int, inserted: bool)
    | Revoke(userId: int, keyId: int, failed: bool)
    | SetStatus(userId: int, active: bool, failed: bool)
    | Authenticate(text: string, source: string, backend: Backend)

  /** What the environment may choose: clocks go forward, ids are new, answers tell the truth. */
  ghost predicate Enabled(s: System, a: Action) {
    match a
    case Wait(now, today) => s.now <= now && s.today <= today
    case Provision(userId, source) => userId !in s.db.users
    case Create(userId, text, hash, expiresAt, newId, inserted) =>
      inserted ==> newId !in s.db.keys && userId in s.db.users
    case Revoke(userId, keyId, failed) => true
    case SetStatus(userId, active, failed) => true
    case Authenticate(text, source, backend) => Faithful(backend, s.db, s.today)
  }

  predicate RevokeHits(db: Db, userId: int, keyId: int) {
    keyId in db.keys && db.keys[keyId].userId == userId && db.keys[keyId].active
  }

  function Next(w: Crypto, s: System, a: Action): System {
    match a
    case Wait(now, today) => s.(now := now, today := today)
    case Provision(userId, source) =>
      s.(db := s.db.(users := s.db.users[userId := UserRow(true, source)]))
    case Create(userId, text, hash, expiresAt, newId, inserted) =>
      if userId <= 0 || |text| < API_KEY_PREFIX_LENGTH || !inserted then s
      else
        var row := KeyRow(userId, hash, text[..API_KEY_PREFIX_LENGTH], true, expiresAt);
        s.(db := s.db.(keys := s.db.keys[newId := row]),
           caches := InvalidateCandidatesStep(s.caches, text[..API_KEY_PREFIX_LENGTH]))
    case Revoke(userId, keyId, failed) =>
      if failed || !RevokeHits(s.db, userId, keyId) then s
      else
        s.(db := s.db.(keys := s.db.keys[keyId := s.db.keys[keyId].(active := false)]),
           caches := ClearCachesStep(s.caches))
    case SetStatus(userId, active, failed) =>
      if failed || userId <= 0 || userId !in s.db.users then s
      else
        s.(db := s.db.(users := s.db.users[userId := s.db.users[userId].(active := active)]),
           caches := InvalidateUserStep(s.caches, userId))
    case Authenticate(text, source, backend) =>
      s.(caches := AuthenticateStep(s.caches, w, backend, text, source, s.now).caches)
  }

  ghost predicate Legal(w: Crypto, s: System, actions: seq<Action>)
    decreases |actions|
  {
    actions == [] || (Enabled(s, actions[0]) && Legal(w, Next(w, s, actions[0]), actions[1..]))
  }

  function Exec(w: Crypto, s: System, actions: seq<Action>): System
    decreases |actions|
  {
    if actions == [] then s else Exec(w, Next(w, s, actions[0]), actions[1..])
  }

  /** Empty caches over tables in which every key belongs to a user. */
  ghost predicate Initial(s: System) {
    s.caches == Caches(Empty(), Empty()) && KeysHaveOwners(s.db)
  }

  // ---------------------------------------------------------------- the invariant

  ghost predicate KeysHaveOwners(db: Db) {
    forall id | id in db.keys :: db.keys[id].userId in db.users
  }

  /** The list is still what the query returns for some date that is not later than today. */
  ghost predicate CandidatesHold(db: Db, today: int, key: CandidateKey, q: seq<Candidate>) {
    key.source in SOURCES && exists d :: d <= today && IsAnswer(db, d, key, q)
  }

  ghost predicate PrincipalHolds(w: Crypto, db: Db, today: int, vk: VerifiedKey, p: Principal) {
    exists text, d :: w.digest(text) == vk.digest && d <= today && Accepted(w, db, d, text, vk.source, p)
  }

  ghost predicate Inv(w: Crypto, s: System) {
    && KeysHaveOwners(s.db)
    && (forall key | key in s.caches.candidates.entries ::
          CandidatesHold(s.db, s.today, key, s.caches.candidates.entries[key].value))
    && (forall vk | vk in s.caches.verified.entries ::
          PrincipalHolds(w, s.db, s.today, vk, s.caches.verified.entries[vk].value))
  }

  // ---------------------------------------------------------------- table changes

  lemma AnswerSurvives(db: Db, db': Db, today: int, today': int, key: CandidateKey, q: seq<Candidate>)
    requires today <= today' && CandidatesHold(db, today, key, q)
    requires forall id, d :: Selected(db, d, key, id) <==> Selected(db', d, key, id)
    requires forall id | id in db.keys && id in db'.keys :: CandidateOf(db, id) == CandidateOf(db', id)
    ensures CandidatesHold(db', today', key, q)
  {
    var d :| d <= today && IsAnswer(db, d, key, q);
    forall c | c in q ensures Selected(db', d, key, c.id) && c == CandidateOf(db', c.id) {
      assert Selected(db, d, key, c.id);
    }
    assert IsAnswer(db', d, key, q);
  }

  lemma PrincipalSurvives(w: Crypto, db: Db, db': Db, today: int, today': int, vk: VerifiedKey, p: Principal)
    requires today <= today' && PrincipalHolds(w, db, today, vk, p)
    requires forall id, d, key :: Selected(db, d, key, id) ==> Selected(db', d, key, id)
    requires p.apiKeyId in db.keys ==> p.apiKeyId in db'.keys && db.keys[p.apiKeyId].hash == db'.keys[p.apiKeyId].hash
    requires p.apiKeyId in db.keys ==>
               p.apiKeyId in db'.keys && db.keys[p.apiKeyId].userId == db'.keys[p.apiKeyId].userId
    requires UserActive(db, p.userId) ==> UserActive(db', p.userId)
    ensures PrincipalHolds(w, db', today', vk, p)
  {
    var text, d :| w.digest(text) == vk.digest && d <= today && Accepted(w, db, d, text, vk.source, p);
    assert Accepted(w, db', d, text, vk.source, p);
  }

  lemma KeepsWait(w: Crypto, s: System, a: Action)
    requires Inv(w, s) && Enabled(s, a) && a.Wait?
    ensures Inv(w, Next(w, s, a))
  {
  }

  lemma KeepsUserChange(w: Crypto, s: System, a: Action)
    requires Inv(w, s) && Enabled(s, a) && (a.Provision? || a.SetStatus?)
    ensures Inv(w, Next(w, s, a))
  {
    var s' := Next(w, s, a);
    assert forall id, d, key :: Selected(s.db, d, key, id) <==> Selected(s'.db, d, key, id);
    forall key | key in s'.caches.candidates.entries
      ensures CandidatesHold(s'.db, s'.today, key, s'.caches.candidates.entries[key].value)
    {
      AnswerSurvives(s.db, s'.db, s.today, s.today, key, s.caches.candidates.entries[key].value);
    }
    forall vk | vk in s'.caches.verified.entries
      ensures PrincipalHolds(w, s'.db, s'.today, vk, s'.caches.verified.entries[vk].value)
    {
      PrincipalSurvives(w, s.db, s'.db, s.today, s.today, vk, s.caches.verified.entries[vk].value);
    }
  }

  lemma KeepsCreate(w: Crypto, s: System, a: Action)
    requires Inv(w, s) && Enabled(s, a) && a.Create?
    ensures Inv(w, Next(w, s, a))
  {
    var s' := Next(w, s, a);
    forall key | key in s'.caches.candidates.entries
      ensures CandidatesHold(s'.db, s'.today, key, s'.caches.candidates.entries[key].value)
    {
      var q := s.caches.candidates.entries[key].value;
      assert CandidatesHold(s.db, s.today, key, q);
      AnswerSurvives(s.db, s'.db, s.today, s.today, key, q);
    }
    forall vk | vk in s'.caches.verified.entries
      ensures PrincipalHolds(w, s'.db, s'.today, vk, s'.caches.verified.entries[vk].value)
    {
      PrincipalSurvives(w, s.db, s'.db, s.today, s.today, vk, s.caches.verified.entries[vk].value);
    }
  }

  /** What one authentication leaves in the caches, and what its result is worth. */
  lemma AuthenticateHolds(w: Crypto, s: System, text: string, source: string, b: Backend)
    requires Inv(w, s) && Faithful(b, s.db, s.today) && WellFormedRequest(text, source)
    ensures var key := CandidateKey(text[..API_KEY_PREFIX_LENGTH], source);
            var found := FindCandidatesStep(s.caches.candidates, b, key, s.now);
            found.answer.Got? ==>
              && CandidatesHold(s.db, s.today, key, found.answer.value)
              && (var r := Scan(w, b, found.answer.value, text);
                  && (r.Authenticated? ==> exists d :: d <= s.today && Accepted(w, s.db, d, text, source, r.principal))
                  && (r.InvalidCredential? ==> forall p :: !Accepted(w, s.db, s.today, text, source, p)))
  {
    var key := CandidateKey(text[..API_KEY_PREFIX_LENGTH], source);
    var found := FindCandidatesStep(s.caches.candidates, b, key, s.now);
    if found.answer.Got? {
      var q := found.answer.value;
      assert CandidatesHold(s.db, s.today, key, q);
      var d :| d <= s.today && IsAnswer(s.db, d, key, q);
      var r := Scan(w, b, q, text);
      ScanFinds(w, b, q, text);
      if r.Authenticated? {
        var c :| c in q && w.verify(c.keyHash, text) && b.userActive(c.userId) == Got(true)
                 && r.principal == Principal(c.userId, c.id);
        assert Selected(s.db, d, key, c.id);
        assert Accepted(w, s.db, d, text, source, r.principal);
      }
      if r.InvalidCredential? {
        forall p ensures !Accepted(w, s.db, s.today, text, source, p) {
          if Accepted(w, s.db, s.today, text, source, p) {
            assert Selected(s.db, d, key, p.apiKeyId);
            assert false;
          }
        }
      }
    }
  }

  lemma KeepsAuthenticate(w: Crypto, s: System, a: Action)
    requires Inv(w, s) && Enabled(s, a) && a.Authenticate?
    ensures Inv(w, Next(w, s, a))
  {
    if WellFormedRequest(a.text, a.source) {
      AuthenticateHolds(w, s, a.text, a.source, a.backend);
    }
  }

  lemma StepKeepsInv(w: Crypto, s: System, a: Action)
    requires Inv(w, s) && Enabled(s, a)
    ensures Inv(w, Next(w, s, a))
  {
    match a
    case Wait(_, _) => KeepsWait(w, s, a);
    case Provision(_, _) => KeepsUserChange(w, s, a);
    case Create(_, _, _, _, _, _) => KeepsCreate(w, s, a);
    case Revoke(_, _, _) =>
    case SetStatus(_, _, _) => KeepsUserChange(w, s, a);
    case Authenticate(_, _, _) => KeepsAuthenticate(w, s, a);
  }

  lemma {:induction false} RunKeepsInv(w: Crypto, s: System, actions: seq<Action>)
    requires Inv(w, s) && Legal(w, s, actions)
    ensures Inv(w, Exec(w, s, actions))
    decreases |actions|
  {
    if actions != [] {
      StepKeepsInv(w, s, actions[0]);
      RunKeepsInv(w, Next(w, s, actions[0]), actions[1..]);
    }
  }

  // ---------------------------------------------------------------- the results

  /** The first candidate that verifies the text and whose owner is active. */
  ghost function FirstMatch(w: Crypto, db: Db, q: seq<Candidate>, text: string): Option<Candidate> {
    if q == [] then None
    else if w.verify(q[0].keyHash, text) && UserActive(db, q[0].userId) then Some(q[0])
    else FirstMatch(w, db, q[1..], text)
  }

  /** The key that the caches name for this request: a verified principal, else a match in a cached list. */
  ghost function CachedKey(w: Crypto, s: System, text: string, source: string): Option<int>
    requires WellFormedRequest(text, source)
  {
    match Peek(s.caches.verified, API_KEY_CACHE_TTL, VerifiedKey(w.digest(text), source), s.now)
    case Some(p) => Some(p.apiKeyId)
    case None =>
      match Peek(s.caches.candidates, API_KEY_CACHE_TTL, CandidateKey(text[..API_KEY_PREFIX_LENGTH], source), s.now)
      case None => None
      case Some(q) =>
        match FirstMatch(w, s.db, q, text)
        case None => None
        case Some(c) => Some(c.id)
  }

  /** Before the call: the caches name a key that has passed its expiry date. */
  ghost predicate ServesExpired(w: Crypto, s: System, text: string, source: string) {
    WellFormedRequest(text, source) && CachedKey(w, s, text, source).Some? &&
    !Unexpired(s.db, s.today, CachedKey(w, s, text, source).value)
  }

  /** A scan that no query fails finds the first match. */
  lemma {:induction false} ScanIsFirstMatch(w: Crypto, db: Db, today: int, b: Backend, q: seq<Candidate>, text: string)
    requires Faithful(b, db, today)
    ensures var r := Scan(w, b, q, text);
            r.BackendError? ||
            r == match FirstMatch(w, db, q, text)
                 case None => InvalidCredential
                 case Some(c) => Authenticated(Principal(c.userId, c.id))
  {
    if q != [] {
      ScanIsFirstMatch(w, db, today, b, q[1..], text);
    }
  }

  /** What the caches answer names the cached key, and what a new query answers is unexpired. */
  lemma AcceptedKeyIsCachedOrUnexpired(w: Crypto, s: System, text: string, source: string, b: Backend)
    requires WellFormedRequest(text, source) && Faithful(b, s.db, s.today)
    requires AuthenticateStep(s.caches, w, b, text, source, s.now).result.Authenticated?
    ensures var id := AuthenticateStep(s.caches, w, b, text, source, s.now).result.principal.apiKeyId;
            match CachedKey(w, s, text, source)
            case Some(cached) => id == cached
            case None => Unexpired(s.db, s.today, id)
  {
    var key := CandidateKey(text[..API_KEY_PREFIX_LENGTH], source);
    var vk := VerifiedKey(w.digest(text), source);
    if Peek(s.caches.verified, API_KEY_CACHE_TTL, vk, s.now).None? {
      var q := FindCandidatesStep(s.caches.candidates, b, key, s.now).answer.value;
      ScanIsFirstMatch(w, s.db, s.today, b, q, text);
      ScanFinds(w, b, q, text);
    }
  }

  /**
  After any run, an authentication that the database did not fail is right by the tables: a
  refusal means that no key is acceptable today, and a returned principal is acceptable today
  exactly if, before the call, the caches did not name a key that has passed its expiry date.
  */
  lemma CachedAnswerIsRight(w: Crypto, s0: System, actions: seq<Action>, text: string, source: string, b: Backend)
    requires InjectiveDigest(w) && Initial(s0) && Legal(w, s0, actions)
    requires var s := Exec(w, s0, actions); Faithful(b, s.db, s.today)
    ensures var s := Exec(w, s0, actions);
            var r := AuthenticateStep(s.caches, w, b, text, source, s.now).result;
            && (r.InvalidCredential? ==> forall p :: !Accepted(w, s.db, s.today, text, source, p))
            && (r.Authenticated? ==>
                  (Accepted(w, s.db, s.today, text, source, r.principal) <==> !ServesExpired(w, s, text, source)))
  {
    RunKeepsInv(w, s0, actions);
    var s := Exec(w, s0, actions);
    var r := AuthenticateStep(s.caches, w, b, text, source, s.now).result;
    if WellFormedRequest(text, source) {
      AuthenticateHolds(w, s, text, source, b);
      var vk := VerifiedKey(w.digest(text), source);
      if vk in s.caches.verified.entries {
        assert PrincipalHolds(w, s.db, s.today, vk, s.caches.verified.entries[vk].value);
      }
      if r.Authenticated? {
        AcceptedKeyIsCachedOrUnexpired(w, s, text, source, b);
        assert exists d :: Accepted(w, s.db, d, text, source, r.principal);
      }
    }
  }

  /** At most one stored key verifies the text. */
  ghost predicate OneKeyFor(w: Crypto, db: Db, text: string) {
    forall i, j | i in db.keys && j in db.keys && w.verify(db.keys[i].hash, text) && w.verify(db.keys[j].hash, text) ::
        i == j
  }

  /** The answer without caches: ask for the candidates and scan them. */
  function UncachedResult(w: Crypto, b: Backend, text: string, source: string): Result {
    if !WellFormedRequest(text, source) then InvalidCredential
    else
      match b.candidates(CandidateKey(text[..API_KEY_PREFIX_LENGTH], source))
      case Failed => BackendError
      case Got(q) => Scan(w, b, q, text)
  }

  lemma UncachedAnswerIsRight(w: Crypto, db: Db, today: int, b: Backend, text: string, source: string)
    requires Faithful(b, db, today) && NeverFails(b)
    ensures var r := UncachedResult(w, b, text, source);
            && !r.BackendError?
            && (r.InvalidCredential? ==> forall p :: !Accepted(w, db, today, text, source, p))
            && (r.Authenticated? ==> Accepted(w, db, today, text, source, r.principal))
  {
    if WellFormedRequest(text, source) {
      var key := CandidateKey(text[..API_KEY_PREFIX_LENGTH], source);
      var q := b.candidates(key).value;
      ScanFinds(w, b, q, text);
      ScanWithoutFailures(w, b, q, text);
      forall p | Accepted(w, db, today, text, source, p)
        ensures !UncachedResult(w, b, text, source).InvalidCredential?
      {
        assert CandidateOf(db, p.apiKeyId) in q;
      }
    }
  }

  /** An expired key in the caches is served, whatever the database answers. */
  lemma ExpiredKeyIsServed(w: Crypto, s: System, text: string, source: string, b: Backend)
    requires Faithful(b, s.db, s.today) && NeverFails(b) && ServesExpired(w, s, text, source)
    ensures AuthenticateStep(s.caches, w, b, text, source, s.now).result.Authenticated?
  {
    var vk := VerifiedKey(w.digest(text), source);
    if Peek(s.caches.verified, API_KEY_CACHE_TTL, vk, s.now).None? {
      var key := CandidateKey(text[..API_KEY_PREFIX_LENGTH], source);
      var q := Peek(s.caches.candidates, API_KEY_CACHE_TTL, key, s.now).value;
      ScanIsFirstMatch(w, s.db, s.today, b, q, text);
      ScanWithoutFailures(w, b, q, text);
    }
  }

  /**
  With one key per plaintext, the cached answer is the uncached one exactly if the caches do not name
  an expired key.
  */
  lemma CachedEqualsUncached(w: Crypto, s0: System, actions: seq<Action>, text: string, source: string, b: Backend)
    requires InjectiveDigest(w) && Initial(s0) && Legal(w, s0, actions)
    requires var s := Exec(w, s0, actions);
             Faithful(b, s.db, s.today) && NeverFails(b) && OneKeyFor(w, s.db, text)
    ensures var s := Exec(w, s0, actions);
            AuthenticateStep(s.caches, w, b, text, source, s.now).result == UncachedResult(w, b, text, source) <==>
            !ServesExpired(w, s, text, source)
  {
    var s := Exec(w, s0, actions);
    CachedAnswerIsRight(w, s0, actions, text, source, b);
    UncachedAnswerIsRight(w, s.db, s.today, b, text, source);
    if ServesExpired(w, s, text, source) {
      ExpiredKeyIsServed(w, s, text, source, b);
    } else if WellFormedRequest(text, source) {
      var key := CandidateKey(text[..API_KEY_PREFIX_LENGTH], source);
      ScanWithoutFailures(w, b, FindCandidatesStep(s.caches.candidates, b, key, s.now).answer.value, text);
    }
  }

  /** So they are equal whenever every stored key that verifies the text is unexpired. */
  lemma UnexpiredKeysAgree(w: Crypto, s0: System, actions: seq<Action>, text: string, source: string, b: Backend)
    requires InjectiveDigest(w) && Initial(s0) && Legal(w, s0, actions)
    requires var s := Exec(w, s0, actions);
             Faithful(b, s.db, s.today) && NeverFails(b) && OneKeyFor(w, s.db, text)
    requires var s := Exec(w, s0, actions);
             forall id | id in s.db.keys && w.verify(s.db.keys[id].hash, text) :: Unexpired(s.db, s.today, id)
    ensures var s := Exec(w, s0, actions);
            AuthenticateStep(s.caches, w, b, text, source, s.now).result == UncachedResult(w, b, text, source)
  {
    var s := Exec(w, s0, actions);
    CachedEqualsUncached(w, s0, actions, text, source, b);
    if ServesExpired(w, s, text, source) {
      RunKeepsInv(w, s0, actions);
      ExpiredKeyIsServed(w, s, text, source, b);
      AcceptedKeyIsCachedOrUnexpired(w, s, text, source, b);
      AuthenticateHolds(w, s, text, source, b);
      assert false;
    }
  }

  // ---------------------------------------------------------------- what the operations do to the answers

  /**
  The answer read off the rows. A returned principal names a row of the key table that is active, has the
  prefix of the plaintext, verifies it and belongs to that user, who is active and of the source asked for. A
  refusal of a well-formed request means that no unexpired row is like this.
  */
  lemma AnswerByRows(w: Crypto, s0: System, actions: seq<Action>, text: string, source: string, b: Backend)
    requires InjectiveDigest(w) && Initial(s0) && Legal(w, s0, actions)
    requires var s := Exec(w, s0, actions); Faithful(b, s.db, s.today)
    ensures var s := Exec(w, s0, actions);
            var r := AuthenticateStep(s.caches, w, b, text, source, s.now).result;
            && (r.Authenticated? ==>
                  var id := r.principal.apiKeyId;
                  && |text| >= 8 && (source == "" || source == "ldap" || source == "static")
                  && id in s.db.keys && s.db.keys[id].active && s.db.keys[id].prefix == text[..8]
                  && w.verify(s.db.keys[id].hash, text) && s.db.keys[id].userId == r.principal.userId
                  && r.principal.userId in s.db.users && s.db.users[r.principal.userId].active
                  && (source == "" || s.db.users[r.principal.userId].source == source))
            && (r.InvalidCredential? && |text| >= 8 && (source == "" || source == "ldap" || source == "static") ==>
                  forall id | id in s.db.keys ::
                    !(&& s.db.keys[id].active && s.db.keys[id].prefix == text[..8] && w.verify(s.db.keys[id].hash, text)
                      && (s.db.keys[id].expiresAt == None || s.db.keys[id].expiresAt.value >= s.today)
                      && s.db.keys[id].userId in s.db.users && s.db.users[s.db.keys[id].userId].active
                      && (source == "" || s.db.users[s.db.keys[id].userId].source == source)))
            && (NeverFails(b) ==> !r.BackendError?)
            && (r.BackendError? ==> |text| >= 8 && (source == "" || source == "ldap" || source == "static"))
  {
    var s := Exec(w, s0, actions);
    var r := AuthenticateStep(s.caches, w, b, text, source, s.now).result;
    CachedAnswerIsRight(w, s0, actions, text, source, b);
    if r.Authenticated? {
      ReturnedWasAccepted(w, s0, actions, text, source, b);
    }
    if r.InvalidCredential? && WellFormedRequest(text, source) {
      forall id | id in s.db.keys
        ensures !Accepted(w, s.db, s.today, text, source, Principal(s.db.keys[id].userId, id))
      {
      }
    }
    if NeverFails(b) && WellFormedRequest(text, source) {
      var key := CandidateKey(text[..API_KEY_PREFIX_LENGTH], source);
      ScanWithoutFailures(w, b, FindCandidatesStep(s.caches.candidates, b, key, s.now).answer.value, text);
    }
  }

  /** Whatever is returned was acceptable at some date, by the rows as they are now. */
  lemma ReturnedWasAccepted(w: Crypto, s0: System, actions: seq<Action>, text: string, source: string, b: Backend)
    requires InjectiveDigest(w) && Initial(s0) && Legal(w, s0, actions)
    requires var s := Exec(w, s0, actions); Faithful(b, s.db, s.today)
    requires var s := Exec(w, s0, actions); AuthenticateStep(s.caches, w, b, text, source, s.now).result.Authenticated?
    ensures var s := Exec(w, s0, actions);
            exists d :: Accepted(w, s.db, d, text, source,
                                 AuthenticateStep(s.caches, w, b, text, source, s.now).result.principal)
  {
    RunKeepsInv(w, s0, actions);
    var s := Exec(w, s0, actions);
    AuthenticateHolds(w, s, text, source, b);
    var vk := VerifiedKey(w.digest(text), source);
    if vk in s.caches.verified.entries {
      assert PrincipalHolds(w, s.db, s.today, vk, s.caches.verified.entries[vk].value);
    }
  }

  lemma {:induction false} RunsOn(w: Crypto, s: System, a: seq<Action>, b: seq<Action>)
    ensures Exec(w, s, a + b) == Exec(w, Exec(w, s, a), b)
    ensures Legal(w, s, a + b) <==> Legal(w, s, a) && Legal(w, Exec(w, s, a), b)
    decreases |a|
  {
    if a == [] {
      assert a + b == b;
    } else {
      assert (a + b)[1..] == a[1..] + b && (a + b)[0] == a[0];
      RunsOn(w, Next(w, s, a[0]), a[1..], b);
    }
  }

  lemma {:induction false} RevokedStaysRevoked(w: Crypto, s: System, actions: seq<Action>, id: int)
    requires Legal(w, s, actions) && id in s.db.keys && !s.db.keys[id].active
    ensures id in Exec(w, s, actions).db.keys && !Exec(w, s, actions).db.keys[id].active
    decreases |actions|
  {
    if actions != [] {
      RevokedStaysRevoked(w, Next(w, s, actions[0]), actions[1..], id);
    }
  }

  /** Once an active key has been revoked, no call in any later state returns it, whatever happens in between. */
  lemma RevokedKeyNeverReturns(w: Crypto, s0: System, before: seq<Action>, userId: int, keyId: int, after: seq<Action>,
                               text: string, source: string, b: Backend)
    requires InjectiveDigest(w) && Initial(s0) && Legal(w, s0, before)
    requires Legal(w, Exec(w, s0, before + [Revoke(userId, keyId, false)]), after)
    requires var s := Exec(w, s0, before);
             keyId in s.db.keys && s.db.keys[keyId].userId == userId && s.db.keys[keyId].active
    requires var s := Exec(w, s0, before + [Revoke(userId, keyId, false)] + after); Faithful(b, s.db, s.today)
    ensures Legal(w, s0, before + [Revoke(userId, keyId, false)] + after)
    ensures var s := Exec(w, s0, before + [Revoke(userId, keyId, false)] + after);
            var r := AuthenticateStep(s.caches, w, b, text, source, s.now).result;
            r.Authenticated? ==> r.principal.apiKeyId != keyId
  {
    var revoke := Revoke(userId, keyId, false);
    RunsOn(w, s0, before + [revoke], after);
    RunsOn(w, s0, before, [revoke]);
    var s1 := Exec(w, s0, before);
    assert Exec(w, s1, [revoke]) == Next(w, s1, revoke) && Legal(w, s1, [revoke]);
    RevokedStaysRevoked(w, Next(w, s1, revoke), after, keyId);
    AnswerByRows(w, s0, before + [revoke] + after, text, source, b);
  }

  ghost predicate NeverActivates(actions: seq<Action>, userId: int) {
    forall a | a in actions && a.SetStatus? && a.userId == userId :: a.failed || !a.active
  }

  lemma {:induction false} BlockedStaysBlocked(w: Crypto, s: System, actions: seq<Action>, userId: int)
    requires Legal(w, s, actions) && userId in s.db.users && !s.db.users[userId].active &&
               NeverActivates(actions, userId)
    ensures userId in Exec(w, s, actions).db.users && !Exec(w, s, actions).db.users[userId].active
    decreases |actions|
  {
    if actions != [] {
      assert actions[0] in actions && forall a | a in actions[1..] :: a in actions;
      BlockedStaysBlocked(w, Next(w, s, actions[0]), actions[1..], userId);
    }
  }

  /** Once a user has been blocked, no call returns the user until the user is set active again. */
  lemma BlockedUserNeverReturns(w: Crypto, s0: System, before: seq<Action>, userId: int, after: seq<Action>,
                                text: string, source: string, b: Backend)
    requires InjectiveDigest(w) && Initial(s0) && userId > 0 && userId in Exec(w, s0, before).db.users
    requires Legal(w, s0, before) && NeverActivates(after, userId)
    requires Legal(w, Exec(w, s0, before + [SetStatus(userId, false, false)]), after)
    requires var s := Exec(w, s0, before + [SetStatus(userId, false, false)] + after); Faithful(b, s.db, s.today)
    ensures Legal(w, s0, before + [SetStatus(userId, false, false)] + after)
    ensures var s := Exec(w, s0, before + [SetStatus(userId, false, false)] + after);
            var r := AuthenticateStep(s.caches, w, b, text, source, s.now).result;
            r.Authenticated? ==> r.principal.userId != userId
  {
    var block := SetStatus(userId, false, false);
    RunsOn(w, s0, before + [block], after);
    RunsOn(w, s0, before, [block]);
    var s1 := Exec(w, s0, before);
    assert Exec(w, s1, [block]) == Next(w, s1, block) && Legal(w, s1, [block]);
    BlockedStaysBlocked(w, Next(w, s1, block), after, userId);
    AnswerByRows(w, s0, before + [block] + after, text, source, b);
  }

  /** A request that some row satisfies is accepted, by the caches as without them. */
  lemma SatisfiedIsAccepted(w: Crypto, s0: System, actions: seq<Action>, text: string, source: string, b: Backend,
                            id: int)
    requires InjectiveDigest(w) && Initial(s0) && Legal(w, s0, actions) && NeverFails(b)
    requires var s := Exec(w, s0, actions);
             Faithful(b, s.db, s.today) && id in s.db.keys &&
             Accepted(w, s.db, s.today, text, source, Principal(s.db.keys[id].userId, id))
    ensures var s := Exec(w, s0, actions);
            && AuthenticateStep(s.caches, w, b, text, source, s.now).result.Authenticated?
            && UncachedResult(w, b, text, source).Authenticated?
  {
    var s := Exec(w, s0, actions);
    CachedAnswerIsRight(w, s0, actions, text, source, b);
    AnswerByRows(w, s0, actions, text, source, b);
    UncachedAnswerIsRight(w, s.db, s.today, b, text, source);
  }

  /**
  A new key of an active user is accepted at once, with any source and with the user's own. Its row says who
  owns it.
  */
  lemma CreatedKeyIsAccepted(w: Crypto, s0: System, actions: seq<Action>, userId: int, text: string, hash: string,
                             expiresAt: Option<int>, newId: int, source: string, b: Backend)
    requires InjectiveDigest(w) && Initial(s0) && Legal(w, s0, actions) && NeverFails(b)
    requires var s := Exec(w, s0, actions);
             && userId > 0 && |text| >= 8 && newId !in s.db.keys && userId in s.db.users && s.db.users[userId].active
             && w.verify(hash, text) && (expiresAt == None || expiresAt.value >= s.today)
             && (source == "" || source == s.db.users[userId].source) && source in SOURCES
    requires var s := Exec(w, s0, actions + [Create(userId, text, hash, expiresAt, newId, true)]);
             Faithful(b, s.db, s.today)
    ensures Legal(w, s0, actions + [Create(userId, text, hash, expiresAt, newId, true)])
    ensures var s := Exec(w, s0, actions + [Create(userId, text, hash, expiresAt, newId, true)]);
            && AuthenticateStep(s.caches, w, b, text, source, s.now).result.Authenticated?
            && UncachedResult(w, b, text, source).Authenticated?
            && newId in s.db.keys && s.db.keys[newId].userId == userId && s.db.keys[newId].expiresAt == expiresAt
  {
    var create := Create(userId, text, hash, expiresAt, newId, true);
    var s := Exec(w, s0, actions);
    RunsOn(w, s0, actions, [create]);
    var s' := Next(w, s, create);
    assert Exec(w, s, [create]) == s' && Legal(w, s, [create]);
    assert Accepted(w, s'.db, s'.today, text, source, Principal(userId, newId));
    SatisfiedIsAccepted(w, s0, actions + [create], text, source, b, newId);
  }

  /** What a change of status, a revocation and a creation do to who is acceptable, and that they do no more. */
  lemma EffectOnAcceptance(w: Crypto, s: System, a: Action, text: string, source: string, p: Principal)
    requires Enabled(s, a)
    ensures var before := Accepted(w, s.db, s.today, text, source, p);
            var after := Accepted(w, Next(w, s, a).db, s.today, text, source, p);
            match a
            case Revoke(u, k, failed) =>
              after == (before && (failed || p.apiKeyId != k || p.userId != u))
            case SetStatus(u, active, failed) =>
              if failed || p.userId != u || u <= 0 then after == before
              else if active then before ==> after
              else !after
            case Create(u, t, hash, expiresAt, id, inserted) =>
              if !inserted || u <= 0 || |t| < 8 || p.apiKeyId != id then after == before
              else after ==> p.userId == u && w.verify(hash, text) && |text| >= 8 && text[..8] == t[..8]
            case Provision(u, _) => KeysHaveOwners(s.db) ==> after == before
            case _ => after == before
  {
  }

  /** Setting a blocked user active makes the user's keys acceptable as they were. */
  lemma UnblockedUserIsAccepted(w: Crypto, s: System, userId: int, text: string, source: string, p: Principal)
    requires userId > 0 && Accepted(w, s.db, s.today, text, source, p) && p.userId == userId
    ensures var s1 := Next(w, s, SetStatus(userId, false, false));
            var s2 := Next(w, s1, SetStatus(userId, true, false));
            !Accepted(w, s1.db, s1.today, text, source, p) && Accepted(w, s2.db, s2.today, text, source, p)
  {
  }

  /** A provisioned user is active and of the given source. */
  lemma ProvisionedUserCanHaveKeys(w: Crypto, s: System, userId: int, source: string, text: string, hash: string,
                                   newId: int)
    requires userId > 0 && userId !in s.db.users && newId !in s.db.keys && |text| >= 8 && w.verify(hash, text)
    ensures Enabled(s, Provision(userId, source))
    ensures Enabled(Next(w, s, Provision(userId, source)), Create(userId, text, hash, None, newId, true))
    ensures var s1 := Next(w, s, Provision(userId, source));
            var s2 := Next(w, s1, Create(userId, text, hash, None, newId, true));
            forall asked | asked in SOURCES ::
              Accepted(w, s2.db, s2.today, text, asked, Principal(userId, newId)) <==> asked == "" || asked == source
  {
  }

  // ---------------------------------------------------------------- the caches forget

  /** No entry outlives its ten seconds. */
  ghost predicate AgesOk(s: System) {
    && (forall k | k in s.caches.candidates.entries ::
          s.caches.candidates.entries[k].expiresAt <= s.now + API_KEY_CACHE_TTL)
    && (forall k | k in s.caches.verified.entries ::
          s.caches.verified.entries[k].expiresAt <= s.now + API_KEY_CACHE_TTL)
  }

  lemma {:induction false} RunKeepsAges(w: Crypto, s: System, actions: seq<Action>)
    requires AgesOk(s) && Legal(w, s, actions)
    ensures AgesOk(Exec(w, s, actions))
    decreases |actions|
  {
    if actions != [] {
      assert AgesOk(Next(w, s, actions[0]));
      RunKeepsAges(w, Next(w, s, actions[0]), actions[1..]);
    }
  }

  /** Ten seconds after any run, on the same day or a later one, every call is answered as without caches. */
  lemma TenSecondsForget(w: Crypto, s0: System, actions: seq<Action>, today: int, text: string, source: string,
                         b: Backend)
    requires Initial(s0) && Legal(w, s0, actions) && Exec(w, s0, actions).today <= today
    ensures var s := Exec(w, s0, actions);
            var a := Wait(s.now + 10 * SECOND, today);
            && Enabled(s, a)
            && var s' := Next(w, s, a);
               && s'.today == today
               && AuthenticateStep(s'.caches, w, b, text, source, s'.now).result == UncachedResult(w, b, text, source)
  {
    RunKeepsAges(w, s0, actions);
  }

  // ---------------------------------------------------------------- the family that differs

  /** A plaintext that is its own hash and digest: enough to exhibit a run. */
  const PLAIN_CRYPTO := Crypto((hash: string, text: string) => hash == text, (text: string) => text)

  function OneKeyBackend(key: CandidateKey, q: seq<Candidate>): Backend {
    Backend((k: CandidateKey) => if k == key then Got(q) else Failed, (u: int) => Got(u == 7))
  }

  /**
  For every key with an expiry date: authenticated on its last day and again on the next day
  less than ten seconds later, it is accepted although the tables no longer accept it, whatever the
  database would answer then.
  */
  lemma ExpiredKeyStillServed(text: string, keyId: int, lastDay: int, now: int, later: int, then_: Backend)
    requires |text| >= 8 && now <= later < now + 10 * SECOND
    ensures var key := CandidateKey(text[..API_KEY_PREFIX_LENGTH], "");
            var db := Db(map[keyId := KeyRow(7, text, key.prefix, true, Some(lastDay))],
                map[7 := UserRow(true, "ldap")]);
            var s0 := System(db, Caches(Empty(), Empty()), now, lastDay);
            var b := OneKeyBackend(key, [Candidate(keyId, 7, text)]);
            var actions := [Authenticate(text, "", b), Wait(later, lastDay + 1)];
            var s := Exec(PLAIN_CRYPTO, s0, actions);
            && Initial(s0) && Legal(PLAIN_CRYPTO, s0, actions)
            && (AuthenticateStep(s.caches, PLAIN_CRYPTO, then_, text, "", s.now).result ==
                Authenticated(Principal(7, keyId)))
            && !Accepted(PLAIN_CRYPTO, s.db, s.today, text, "", Principal(7, keyId))
  {
    var key := CandidateKey(text[..API_KEY_PREFIX_LENGTH], "");
    var db := Db(map[keyId := KeyRow(7, text, key.prefix, true, Some(lastDay))], map[7 := UserRow(true, "ldap")]);
    var s0 := System(db, Caches(Empty(), Empty()), now, lastDay);
    var q := [Candidate(keyId, 7, text)];
    var b := OneKeyBackend(key, q);
    var a0, a1 := Authenticate(text, "", b), Wait(later, lastDay + 1);
    var actions := [a0, a1];
    assert IsAnswer(db, lastDay, key, q);
    assert Scan(PLAIN_CRYPTO, b, q, text) == Authenticated(Principal(7, keyId));
    var s1 := Next(PLAIN_CRYPTO, s0, a0);
    var s2 := Next(PLAIN_CRYPTO, s1, a1);
    assert actions[1..] == [a1] && [a1][1..] == [];
    assert Exec(PLAIN_CRYPTO, s2, []) == s2;
    assert Exec(PLAIN_CRYPTO, s1, [a1]) == s2;
    assert Legal(PLAIN_CRYPTO, s2, []) && Legal(PLAIN_CRYPTO, s1, [a1]);
    assert VerifiedKey(text, "") in s2.caches.verified.entries;
  }
}
