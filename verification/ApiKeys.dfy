/**
Client API-key authentication (internal/store/api_keys.go): a scan of the candidate keys in the
database behind two TTL caches, one for candidate lists and one for verified principals.

This module holds the tables, the caches and the operations on them. Cryptography is a parameter:
`verify` stands for bcrypt and `digest` for SHA-256. The answers of the database at the instant of
a call are a parameter too (`Backend`), so any query may fail and rows may come in any order.
*/
module ApiKeys {
  import opened Options
  import opened TtlCache

  const API_KEY_PREFIX_LENGTH := 8
  const API_KEY_CACHE_TTL := 10 * SECOND

  datatype KeyRow = KeyRow(userId: int, hash: string, prefix: string, active: bool, expiresAt: Option<int>)
  datatype UserRow = UserRow(active: bool, source: string)
  datatype Db = Db(keys: map<int, KeyRow>, users: map<int, UserRow>)

  datatype Candidate = Candidate(id: int, userId: int, keyHash: string)
  datatype CandidateKey = CandidateKey(prefix: string, source: string)
  datatype VerifiedKey = VerifiedKey(digest: string, source: string)
  datatype Principal = Principal(userId: int, apiKeyId: int)

  datatype Crypto = Crypto(verify: (string, string) -> bool, digest: string -> string)

  ghost predicate InjectiveDigest(w: Crypto) {
    forall a, b :: w.digest(a) == w.digest(b) ==> a == b
  }

  /** The identity sources a caller can reach the caches with; "" asks for any source. */
  const SOURCES := {"", "ldap", "static"}

  // ---------------------------------------------------------------- the database side

  /** The WHERE clause of FindAPIKeyCandidates and FindAPIKeyCandidatesForSource. */
  predicate Selected(db: Db, today: int, key: CandidateKey, id: int) {
    id in db.keys && Unexpired(db, today, id) &&
    var row := db.keys[id];
    row.prefix == key.prefix && row.active && row.userId in db.users &&
    (key.source == "" || db.users[row.userId].source == key.source)
  }

  predicate Unexpired(db: Db, today: int, id: int) {
    id in db.keys && (db.keys[id].expiresAt.None? || db.keys[id].expiresAt.value >= today)
  }

  function CandidateOf(db: Db, id: int): Candidate
    requires id in db.keys
  {
    Candidate(id, db.keys[id].userId, db.keys[id].hash)
  }

  /** q lists exactly the selected rows. The query has no ORDER BY, so their order is open. */
  ghost predicate IsAnswer(db: Db, today: int, key: CandidateKey, q: seq<Candidate>) {
    (forall c | c in q :: Selected(db, today, key, c.id) && c == CandidateOf(db, c.id)) &&
    (forall id | Selected(db, today, key, id) :: CandidateOf(db, id) in q)
  }

  predicate UserActive(db: Db, userId: int) {
    userId in db.users && db.users[userId].active
  }

  datatype Answer<+T> = Failed | Got(value: T)

  /** What the database would answer to each query during one call. */
  datatype Backend = Backend(candidates: CandidateKey -> Answer<seq<Candidate>>, userActive: int -> Answer<bool>)

  ghost predicate Faithful(b: Backend, db: Db, today: int) {
    (forall key :: b.candidates(key).Got? ==> IsAnswer(db, today, key, b.candidates(key).value)) &&
    (forall u :: b.userActive(u).Got? ==> b.userActive(u).value == UserActive(db, u))
  }

  ghost predicate NeverFails(b: Backend) {
    (forall key :: b.candidates(key).Got?) && (forall u :: b.userActive(u).Got?)
  }

  /** p is a principal that the plaintext is entitled to, by the tables alone. */
  ghost predicate Accepted(w: Crypto, db: Db, today: int, text: string, source: string, p: Principal) {
    |text| >= API_KEY_PREFIX_LENGTH && source in SOURCES &&
    Selected(db, today, CandidateKey(text[..API_KEY_PREFIX_LENGTH], source), p.apiKeyId) &&
    w.verify(db.keys[p.apiKeyId].hash, text) &&
    p.userId == db.keys[p.apiKeyId].userId && UserActive(db, p.userId)
  }

  // ---------------------------------------------------------------- the cache side

  datatype Caches = Caches(candidates: State<CandidateKey, seq<Candidate>>, verified: State<VerifiedKey, Principal>)

  datatype Result = Authenticated(principal: Principal) | InvalidCredential | BackendError

  datatype CreateOutcome = CreateRefused | CreateFailed | Created(id: int)

  datatype RevokeOutcome = RevokeFailed | RevokeNotFound | Revoked

  datatype AuthOutcome = AuthOutcome(caches: Caches, result: Result)

  datatype Found = Found(cache: State<CandidateKey, seq<Candidate>>, answer: Answer<seq<Candidate>>)

  function FindCandidatesStep(cache: State<CandidateKey, seq<Candidate>>, b: Backend, key: CandidateKey,
                              now: int): Found {
    var read := GetStep(cache, API_KEY_CACHE_TTL, key, now);
    if read.answer.Some? then Found(read.state, Got(read.answer.value))
    else
      match b.candidates(key)
      case Failed => Found(read.state, Failed)
      case Got(q) => Found(SetStep(read.state, API_KEY_CACHE_TTL, key, q, now), Got(q))
  }

  /** The scan over the candidates, without any cache. */
  function Scan(w: Crypto, b: Backend, q: seq<Candidate>, text: string): Result {
    if q == [] then InvalidCredential
    else if !w.verify(q[0].keyHash, text) then Scan(w, b, q[1..], text)
    else
      match b.userActive(q[0].userId)
      case Failed => BackendError
      case Got(active) =>
        if active then Authenticated(Principal(q[0].userId, q[0].id)) else Scan(w, b, q[1..], text)
  }

  predicate WellFormedRequest(text: string, source: string) {
    |text| >= API_KEY_PREFIX_LENGTH && source in SOURCES
  }

  function AuthenticateStep(c: Caches, w: Crypto, b: Backend, text: string, source: string, now: int): AuthOutcome {
    if !WellFormedRequest(text, source) then AuthOutcome(c, InvalidCredential)
    else
      var vk := VerifiedKey(w.digest(text), source);
      var read := GetStep(c.verified, API_KEY_CACHE_TTL, vk, now);
      if read.answer.Some? then AuthOutcome(c.(verified := read.state), Authenticated(read.answer.value))
      else
        var found := FindCandidatesStep(c.candidates, b, CandidateKey(text[..API_KEY_PREFIX_LENGTH], source), now);
        if found.answer.Failed? then AuthOutcome(Caches(found.cache, read.state), BackendError)
        else
          var result := Scan(w, b, found.answer.value, text);
          var verified := if result.Authenticated?
                          then SetStep(read.state, API_KEY_CACHE_TTL, vk, result.principal, now)
                          else read.state;
          AuthOutcome(Caches(found.cache, verified), result)
  }

  function InvalidateCandidatesStep(c: Caches, prefix: string): Caches {
    c.(candidates :=
      DeleteStep(DeleteStep(DeleteStep(c.candidates,
        CandidateKey(prefix, "")), CandidateKey(prefix, "ldap")), CandidateKey(prefix, "static")))
  }

  function InvalidateUserStep(c: Caches, userId: int): Caches {
    if userId <= 0 then c
    else c.(verified := DeleteWhereStep(c.verified, (_: VerifiedKey, p: Principal) => p.userId == userId))
  }

  function ClearCachesStep(c: Caches): Caches {
    Caches(ClearStep(c.candidates), ClearStep(c.verified))
  }

  // ---------------------------------------------------------------- the mutable repository

  class APIKeyRepository {
    const candidatesCache: TTL<CandidateKey, seq<Candidate>>
    const verifiedCache: TTL<VerifiedKey, Principal>

    ghost predicate Valid() {
      && candidatesCache.ttl == verifiedCache.ttl == API_KEY_CACHE_TTL
      && candidatesCache as object != verifiedCache as object
    }

    ghost function View(): Caches
      reads candidatesCache, verifiedCache
    {
      Caches(candidatesCache.View(), verifiedCache.View())
    }

    constructor ()
      ensures Valid() && View() == Caches(Empty(), Empty())
      ensures fresh(candidatesCache) && fresh(verifiedCache)
    {
      candidatesCache := new TTL(API_KEY_CACHE_TTL);
      verifiedCache := new TTL(API_KEY_CACHE_TTL);
    }

    method FindCandidates(b: Backend, key: CandidateKey, now: int) returns (answer: Answer<seq<Candidate>>)
      requires Valid()
      modifies candidatesCache
      ensures Found(candidatesCache.View(), answer) == FindCandidatesStep(old(candidatesCache.View()), b, key, now)
    {
      var cached := candidatesCache.Get(key, now);
      if cached.Some? {
        return Got(cached.value);
      }
      answer := b.candidates(key);
      if answer.Failed? {
        return;
      }
      candidatesCache.Set(key, answer.value, now);
    }

    method Authenticate(w: Crypto, b: Backend, text: string, now: int) returns (result: Result)
      requires Valid()
      modifies candidatesCache, verifiedCache
      ensures AuthOutcome(View(), result) == AuthenticateStep(old(View()), w, b, text, "", now)
    {
      if |text| < API_KEY_PREFIX_LENGTH {
        return InvalidCredential;
      }
      result := AuthenticateFor(w, b, text, "", now);
    }

    method AuthenticateForSource(w: Crypto, b: Backend, text: string, source: string, now: int) returns (result: Result)
      requires Valid()
      modifies candidatesCache, verifiedCache
      ensures AuthOutcome(View(), result) ==
              if source == "" then AuthOutcome(old(View()), InvalidCredential)
              else AuthenticateStep(old(View()), w, b, text, source, now)
    {
      if |text| < API_KEY_PREFIX_LENGTH || (source != "ldap" && source != "static") {
        return InvalidCredential;
      }
      result := AuthenticateFor(w, b, text, source, now);
    }

    /** The worker behind both entry points. */
    method AuthenticateFor(w: Crypto, b: Backend, text: string, source: string, now: int) returns (result: Result)
      requires Valid() && WellFormedRequest(text, source)
      modifies candidatesCache, verifiedCache
      ensures AuthOutcome(View(), result) == AuthenticateStep(old(View()), w, b, text, source, now)
    {
      var vk := VerifiedKey(w.digest(text), source);
      var hit := verifiedCache.Get(vk, now);
      if hit.Some? {
        return Authenticated(hit.value);
      }
      var candidates := FindCandidates(b, CandidateKey(text[..API_KEY_PREFIX_LENGTH], source), now);
      if candidates.Failed? {
        return BackendError;
      }
      var q := candidates.value;
      ghost var scanned := Scan(w, b, q, text);
      ghost var missed := verifiedCache.View();
      for i := 0 to |q|
        invariant scanned == Scan(w, b, q[i..], text)
        invariant verifiedCache.View() == missed
        invariant candidatesCache.View() == FindCandidatesStep(old(candidatesCache.View()), b,
                    CandidateKey(text[..API_KEY_PREFIX_LENGTH], source), now).cache
      {
        assert q[i..][0] == q[i] && q[i..][1..] == q[i + 1..];
        if !w.verify(q[i].keyHash, text) {
          continue;
        }
        var active := b.userActive(q[i].userId);
        if active.Failed? {
          return BackendError;
        }
        if active.value {
          var principal := Principal(q[i].userId, q[i].id);
          verifiedCache.Set(vk, principal, now);
          return Authenticated(principal);
        }
      }
      return InvalidCredential;
    }

    method InvalidateUser(userId: int)
      requires Valid()
      modifies verifiedCache
      ensures View() == InvalidateUserStep(old(View()), userId)
    {
      if userId <= 0 {
        return;
      }
      verifiedCache.DeleteWhere((_: VerifiedKey, p: Principal) => p.userId == userId);
    }

    method InvalidateCandidates(prefix: string)
      requires Valid()
      modifies candidatesCache
      ensures View() == InvalidateCandidatesStep(old(View()), prefix)
    {
      candidatesCache.Delete(CandidateKey(prefix, ""));
      candidatesCache.Delete(CandidateKey(prefix, "ldap"));
      candidatesCache.Delete(CandidateKey(prefix, "static"));
    }

    /** hash and inserted are what bcrypt and the INSERT answer: a new hash, and the id of the new row. */
    method Create(userId: int, text: string, hash: Answer<string>, inserted: Answer<int>)
      returns (outcome: CreateOutcome)
      requires Valid()
      modifies candidatesCache
      ensures outcome ==
              (if userId <= 0 || |text| < API_KEY_PREFIX_LENGTH then CreateRefused
               else if hash.Failed? || inserted.Failed? then CreateFailed
               else Created(inserted.value))
      ensures View() == if outcome.Created?
                        then InvalidateCandidatesStep(old(View()), text[..API_KEY_PREFIX_LENGTH])
                        else old(View())
    {
      if userId <= 0 || |text| < API_KEY_PREFIX_LENGTH {
        return CreateRefused;
      }
      if hash.Failed? {
        return CreateFailed;
      }
      if inserted.Failed? {
        return CreateFailed;
      }
      InvalidateCandidates(text[..API_KEY_PREFIX_LENGTH]);
      return Created(inserted.value);
    }

    /** revoked is what the UPDATE answers: the number of rows it changed. */
    method Revoke(revoked: Answer<int>) returns (outcome: RevokeOutcome)
      requires Valid()
      modifies candidatesCache, verifiedCache
      ensures outcome == (if revoked.Failed? then RevokeFailed
                          else if revoked.value == 0 then RevokeNotFound else Revoked)
      ensures View() == if outcome.Revoked? then ClearCachesStep(old(View())) else old(View())
    {
      if revoked.Failed? {
        return RevokeFailed;
      }
      if revoked.value == 0 {
        return RevokeNotFound;
      }
      candidatesCache.Clear();
      verifiedCache.Clear();
      return Revoked;
    }
  }

  // ---------------------------------------------------------------- what a scan finds

  lemma {:induction false} ScanFinds(w: Crypto, b: Backend, q: seq<Candidate>, text: string)
    ensures var r := Scan(w, b, q, text);
            && (r.Authenticated? ==>
                  exists c | c in q ::
                    && w.verify(c.keyHash, text) && b.userActive(c.userId) == Got(true)
                    && r.principal == Principal(c.userId, c.id))
            && (r.InvalidCredential? ==>
                  forall c | c in q && w.verify(c.keyHash, text) :: b.userActive(c.userId) == Got(false))
  {
    if q != [] {
      ScanFinds(w, b, q[1..], text);
    }
  }

  lemma {:induction false} ScanWithoutFailures(w: Crypto, b: Backend, q: seq<Candidate>, text: string)
    requires NeverFails(b)
    ensures !Scan(w, b, q, text).BackendError?
  {
    if q != [] {
      ScanWithoutFailures(w, b, q[1..], text);
    }
  }
}
