/**
When a revocation takes effect (internal/store/api_keys.go).

Revoke deactivates the row and then clears the two caches of its own replica, one after the other, while
other calls are on their way. The results say exactly when the key can still authenticate there
afterwards: only if a call in flight on that replica carries the key past its query when the first cache
is cleared, and if and only if such a call, or a list it has stored, is still there when the second is.
Everything interleaves as in ApiKeyCluster, and the tables change in any way that leaves the key inactive.
Blocking a user with InvalidateUser has a result of the same form.
*/
module ApiKeyRevocation {
  import opened Options
  import opened TtlCache
  import opened ApiKeys
  import opened ApiKeyCluster

  predicate Inactive(db: Db, id: int) {
    id in db.keys ==> !db.keys[id].active
  }

  /** Some plaintext that asks for this list verifies against the hash. */
  ghost predicate Opens(w: Crypto, key: CandidateKey, hash: string) {
    exists text: string ::
      |text| >= API_KEY_PREFIX_LENGTH && text[..API_KEY_PREFIX_LENGTH] == key.prefix && w.verify(hash, text)
  }

  ghost predicate ListOpens(w: Crypto, key: CandidateKey, q: seq<Candidate>, id: int) {
    exists k | k in q :: k.id == id && Opens(w, key, k.keyHash)
  }

  /**
  The call has the key in hand: in a list it is about to store, in a list it is scanning with a text that
  verifies, or as the principal it is about to store.
  */
  ghost predicate Carries(w: Crypto, c: Call, id: int)
    requires |c.text| >= API_KEY_PREFIX_LENGTH
  {
    match c.phase
    case Fetched(q) => ListOpens(w, KeyOf(c), q, id)
    case Scanning(q) => exists k | k in q :: k.id == id && w.verify(k.keyHash, c.text)
    case Matched(p) => p.apiKeyId == id
    case _ => false
  }

  ghost predicate CarriedBy(w: Crypto, d: int, s: Cluster, r: int, id: int, call: int)
    requires Started(s)
  {
    InFlight(s, d, call) && s.calls[call].replica == r && Carries(w, s.calls[call], id)
  }

  /** Some call on replica r, still in time, carries the key. */
  ghost predicate Carried(w: Crypto, d: int, s: Cluster, r: int, id: int)
    requires Started(s)
  {
    exists call :: CarriedBy(w, d, s, r, id, call)
  }

  /** The candidates cache of replica r holds a list with the key that a Get would still return. */
  ghost predicate ListedUnder(w: Crypto, s: Cluster, r: int, id: int, key: CandidateKey)
    requires Started(s) && r in s.replicas
  {
    var entries := s.replicas[r].candidates.entries;
    key in entries && Present(s).at < entries[key].expiresAt && ListOpens(w, key, entries[key].value, id)
  }

  ghost predicate Listed(w: Crypto, s: Cluster, r: int, id: int)
    requires Started(s) && r in s.replicas
  {
    exists key :: ListedUnder(w, s, r, id, key)
  }

  /** The key is inactive, and on replica r only the verified cache can still name it. */
  ghost predicate Delisted(w: Crypto, d: int, s: Cluster, r: int, id: int)
    requires Started(s)
  {
    Inactive(Present(s).db, id) && r in s.replicas && !Listed(w, s, r, id) && !Carried(w, d, s, r, id)
  }

  /** The key is inactive, and neither the caches of replica r nor a call on it have it. */
  ghost predicate Forgotten(w: Crypto, d: int, s: Cluster, r: int, id: int)
    requires Started(s)
  {
    && Delisted(w, d, s, r, id)
    && forall vk | vk in s.replicas[r].verified.entries :: s.replicas[r].verified.entries[vk].value.apiKeyId != id
  }

  /** The call has returned on replica r with this key. */
  predicate ServedAs(s: Cluster, r: int, id: int, call: int) {
    call in s.calls && s.calls[call].replica == r &&
    s.calls[call].phase.Done? && s.calls[call].phase.result.Authenticated? &&
    s.calls[call].phase.result.principal.apiKeyId == id
  }

  /** The tables never activate the key again. */
  ghost predicate StaysInactive(actions: seq<Action>, id: int) {
    forall a | a in actions && a.World? :: Inactive(a.snap.db, id)
  }

  // ---------------------------------------------------------------- forgotten for good

  /** The call that takes the step does not pick the key up. */
  lemma DelistedCalls(w: Crypto, d: int, s: Cluster, a: Action, r: int, id: int, call: int)
    requires Started(s) && Delisted(w, d, s, r, id) && Enabled(w, d, s, a) && CallOf(a) == Some(call)
    ensures Started(Next(w, d, s, a)) && !CarriedBy(w, d, Next(w, d, s, a), r, id, call)
  {
    var c := s.calls[call];
    assert !CarriedBy(w, d, s, r, id, call);
    if c.replica == r && a.ScanOne? && c.phase.q != [] {
      assert c.phase.q[0] in c.phase.q && forall k | k in c.phase.q[1..] :: k in c.phase.q;
    }
    if c.replica == r && a.LookCandidates? {
      assert !ListedUnder(w, s, r, id, KeyOf(c));
    }
  }

  lemma DelistedCaches(w: Crypto, d: int, s: Cluster, a: Action, r: int, id: int, key: CandidateKey)
    requires Started(s) && Delisted(w, d, s, r, id) && Enabled(w, d, s, a)
    ensures var s' := Next(w, d, s, a); Started(s') && r in s'.replicas && !ListedUnder(w, s', r, id, key)
  {
    assert !ListedUnder(w, s, r, id, key);
    if a.StoreCandidates? {
      assert !CarriedBy(w, d, s, r, id, a.call);
    }
  }

  lemma StepKeepsDelisted(w: Crypto, d: int, s: Cluster, a: Action, r: int, id: int)
    requires Started(s) && Delisted(w, d, s, r, id) && Enabled(w, d, s, a)
    requires a.World? ==> Inactive(a.snap.db, id)
    ensures var s' := Next(w, d, s, a); Started(s') && Delisted(w, d, s', r, id)
  {
    var s' := Next(w, d, s, a);
    forall key ensures r in s'.replicas && !ListedUnder(w, s', r, id, key) {
      DelistedCaches(w, d, s, a, r, id, key);
    }
    forall call ensures !CarriedBy(w, d, s', r, id, call) {
      if CallOf(a) == Some(call) {
        DelistedCalls(w, d, s, a, r, id, call);
      } else {
        assert !CarriedBy(w, d, s, r, id, call);
      }
    }
  }

  lemma StepKeepsForgotten(w: Crypto, d: int, s: Cluster, a: Action, r: int, id: int)
    requires Started(s) && Forgotten(w, d, s, r, id) && Enabled(w, d, s, a)
    requires a.World? ==> Inactive(a.snap.db, id)
    ensures var s' := Next(w, d, s, a);
            && Started(s') && Forgotten(w, d, s', r, id)
            && forall call :: ServedAs(s', r, id, call) ==> ServedAs(s, r, id, call)
  {
    StepKeepsDelisted(w, d, s, a, r, id);
    if CallOf(a).Some? {
      assert !CarriedBy(w, d, s, r, id, a.call);
    }
  }

  lemma {:induction false} DelistedForGood(w: Crypto, d: int, s: Cluster, actions: seq<Action>, s': Cluster, r: int,
                                           id: int)
    requires Started(s) && Delisted(w, d, s, r, id) && Runs(w, d, s, actions, s') && StaysInactive(actions, id)
    ensures Started(s') && Delisted(w, d, s', r, id)
    decreases |actions|
  {
    if actions != [] {
      assert actions[0] in actions && forall a | a in actions[1..] :: a in actions;
      StepKeepsDelisted(w, d, s, actions[0], r, id);
      DelistedForGood(w, d, Next(w, d, s, actions[0]), actions[1..], s', r, id);
    }
  }

  /** While the key stays inactive, no call on the replica returns it any more. */
  lemma {:induction false} ForgottenForGood(w: Crypto, d: int, s: Cluster, actions: seq<Action>, s': Cluster, r: int,
                                            id: int)
    requires Started(s) && Forgotten(w, d, s, r, id) && Runs(w, d, s, actions, s') && StaysInactive(actions, id)
    ensures Started(s') && Forgotten(w, d, s', r, id)
    ensures forall call :: ServedAs(s', r, id, call) ==> ServedAs(s, r, id, call)
    decreases |actions|
  {
    if actions != [] {
      assert actions[0] in actions && forall a | a in actions[1..] :: a in actions;
      StepKeepsForgotten(w, d, s, actions[0], r, id);
      ForgottenForGood(w, d, Next(w, d, s, actions[0]), actions[1..], s', r, id);
    }
  }

  // ---------------------------------------------------------------- a carried key comes back

  lemma {:induction false} RunsConcat(w: Crypto, d: int, s: Cluster, a: seq<Action>, s1: Cluster, b: seq<Action>,
                                      s2: Cluster)
    requires Runs(w, d, s, a, s1) && Runs(w, d, s1, b, s2)
    ensures Runs(w, d, s, a + b, s2)
    decreases |a|
  {
    if a == [] {
      assert a + b == b;
    } else {
      RunsConcat(w, d, Next(w, d, s, a[0]), a[1..], s1, b, s2);
      assert (a + b)[1..] == a[1..] + b;
    }
  }

  lemma RunsOn(w: Crypto, d: int, s: Cluster, actions: seq<Action>, s1: Cluster, a: Action)
    requires Runs(w, d, s, actions, s1) && Started(s1) && Enabled(w, d, s1, a)
    ensures Runs(w, d, s, actions + [a], Next(w, d, s1, a))
  {
    assert Runs(w, d, Next(w, d, s1, a), [], Next(w, d, s1, a));
    RunsConcat(w, d, s, actions, s1, [a], Next(w, d, s1, a));
  }

  function WithUser(db: Db, userId: int, active: bool): Db {
    var row := if userId in db.users then db.users[userId].(active := active) else UserRow(active, "ldap");
    db.(users := db.users[userId := row])
  }

  /** Only the status of users changes, and the call moves to this phase. */
  ghost predicate Moved(s: Cluster, s': Cluster, call: int, phase: Phase)
    requires Started(s) && call in s.calls
  {
    && Started(s') && Present(s').at == Present(s).at && Present(s').db.keys == Present(s).db.keys
    && s'.replicas == s.replicas && s'.calls == s.calls[call := s.calls[call].(phase := phase)]
  }

  lemma MovedTwice(s: Cluster, s1: Cluster, s2: Cluster, call: int, first: Phase, second: Phase)
    requires Started(s) && call in s.calls && Moved(s, s1, call, first) && Moved(s1, s2, call, second)
    ensures Moved(s, s2, call, second)
  {
  }

  /** The owner of the first candidate is set to this status, and the call looks at the candidate. */
  lemma ScanWithStatus(w: Crypto, d: int, s: Cluster, call: int, active: bool)
    returns (actions: seq<Action>, s': Cluster)
    requires Started(s) && InFlight(s, d, call) && s.calls[call].phase.Scanning? && s.calls[call].phase.q != []
    ensures Runs(w, d, s, actions, s') && forall id :: Inactive(Present(s).db, id) ==> StaysInactive(actions, id)
    ensures var k := s.calls[call].phase.q[0];
            var matched := active && w.verify(k.keyHash, s.calls[call].text);
            var next := if matched then Matched(Principal(k.userId, k.id)) else Scanning(s.calls[call].phase.q[1..]);
            Moved(s, s', call, next)
  {
    var now := Present(s);
    var world := World(Snapshot(now.at, now.today, WithUser(now.db, s.calls[call].phase.q[0].userId, active)));
    var s1 := Next(w, d, s, world);
    assert Present(s1) == world.snap;
    assert Runs(w, d, s, [], s);
    RunsOn(w, d, s, [], s, world);
    RunsOn(w, d, s, [] + [world], s1, ScanOne(call, Got(active)));
    actions, s' := [] + [world] + [ScanOne(call, Got(active))], Next(w, d, s1, ScanOne(call, Got(active)));
  }

  /** A scan over a list with the key can match it: earlier owners are inactive when asked, its own is active. */
  lemma {:induction false} ScanCanMatch(w: Crypto, d: int, s: Cluster, call: int, id: int)
    returns (actions: seq<Action>, s': Cluster, p: Principal)
    requires Started(s) && InFlight(s, d, call) && s.calls[call].phase.Scanning? && Inactive(Present(s).db, id)
    requires Carries(w, s.calls[call], id)
    ensures Runs(w, d, s, actions, s') && StaysInactive(actions, id)
    ensures p.apiKeyId == id && Moved(s, s', call, Matched(p))
    decreases |s.calls[call].phase.q|
  {
    var q := s.calls[call].phase.q;
    var found := q[0].id == id && w.verify(q[0].keyHash, s.calls[call].text);
    actions, s' := ScanWithStatus(w, d, s, call, found);
    p := Principal(q[0].userId, id);
    if !found {
      assert forall k | k in q :: k == q[0] || k in q[1..];
      var s1 := s';
      var rest, s2, match_ := ScanCanMatch(w, d, s1, call, id);
      RunsConcat(w, d, s, actions, s1, rest, s2);
      MovedTwice(s, s1, s2, call, Scanning(q[1..]), Matched(match_));
      actions, s', p := actions + rest, s2, match_;
    }
  }

  /** In some continuation that leaves the key inactive, the call `later` returns with it. */
  ghost predicate ServedAgain(w: Crypto, d: int, s: Cluster, r: int, id: int, later: int) {
    exists actions, s' :: Runs(w, d, s, actions, s') && StaysInactive(actions, id) && ServedAs(s', r, id, later)
  }

  /** A matched call stores its principal, and the next call with the same text finds it. */
  lemma MatchedIsServed(w: Crypto, d: int, s: Cluster, call: int, later: int)
    returns (actions: seq<Action>, s': Cluster)
    requires d >= 0 && Started(s) && InFlight(s, d, call) && s.calls[call].phase.Matched? && later !in s.calls
    requires WellFormedRequest(s.calls[call].text, s.calls[call].source)
    ensures Runs(w, d, s, actions, s') && forall a | a in actions :: !a.World?
    ensures later in s'.calls && s'.calls[later].replica == s.calls[call].replica
    ensures s'.calls[later].phase == Done(Authenticated(s.calls[call].phase.p), Present(s).at)
  {
    var c := s.calls[call];
    var a1, a2, a3 := StoreVerified(call), Start(later, c.replica, c.text, c.source), LookVerified(later);
    var s1 := Next(w, d, s, a1);
    var s2 := Next(w, d, s1, a2);
    assert Runs(w, d, s, [], s);
    RunsOn(w, d, s, [], s, a1);
    RunsOn(w, d, s, [] + [a1], s1, a2);
    RunsOn(w, d, s, [] + [a1] + [a2], s2, a3);
    actions, s' := [] + [a1] + [a2] + [a3], Next(w, d, s2, a3);
  }

  lemma ScanningIsServed(w: Crypto, d: int, s: Cluster, r: int, id: int, call: int, later: int)
    requires d >= 0 && Started(s) && CarriedBy(w, d, s, r, id, call) && s.calls[call].phase.Scanning?
    requires WellFormedRequest(s.calls[call].text, s.calls[call].source)
    requires Inactive(Present(s).db, id) && later !in s.calls
    ensures ServedAgain(w, d, s, r, id, later)
  {
    var actions, s1, p := ScanCanMatch(w, d, s, call, id);
    var more, s' := MatchedIsServed(w, d, s1, call, later);
    RunsConcat(w, d, s, actions, s1, more, s');
  }

  /** A call that starts now misses the verified cache and takes the cached list. */
  lemma ListIsScanned(w: Crypto, d: int, s: Cluster, r: int, key: CandidateKey, later: int, text: string)
    returns (actions: seq<Action>, s': Cluster)
    requires d >= 0 && Started(s) && r in s.replicas && later !in s.calls && s.replicas[r].verified.entries == map[]
    requires key in s.replicas[r].candidates.entries && Present(s).at < s.replicas[r].candidates.entries[key].expiresAt
    requires WellFormedRequest(text, key.source) && text[..API_KEY_PREFIX_LENGTH] == key.prefix
    ensures Runs(w, d, s, actions, s') && forall a | a in actions :: !a.World?
    ensures Started(s') && Present(s') == Present(s) && InFlight(s', d, later)
    ensures s'.calls[later] ==
            Call(r, text, key.source, Present(s).at, Scanning(s.replicas[r].candidates.entries[key].value))
  {
    var a1, a2, a3 := Start(later, r, text, key.source), LookVerified(later), LookCandidates(later);
    var s1 := Next(w, d, s, a1);
    var s2 := Next(w, d, s1, a2);
    assert s2.calls[later].phase == VerifiedMissed;
    assert Runs(w, d, s, [], s);
    RunsOn(w, d, s, [], s, a1);
    RunsOn(w, d, s, [] + [a1], s1, a2);
    RunsOn(w, d, s, [] + [a1] + [a2], s2, a3);
    actions, s' := [] + [a1] + [a2] + [a3], Next(w, d, s2, a3);
  }

  lemma OpeningTextIsServed(w: Crypto, d: int, s: Cluster, r: int, id: int, key: CandidateKey, later: int,
                            text: string)
    requires d >= 0 && Started(s) && r in s.replicas && later !in s.calls && s.replicas[r].verified.entries == map[]
    requires Inactive(Present(s).db, id) && ListedUnder(w, s, r, id, key)
    requires WellFormedRequest(text, key.source) && text[..API_KEY_PREFIX_LENGTH] == key.prefix
    requires exists k | k in s.replicas[r].candidates.entries[key].value :: k.id == id && w.verify(k.keyHash, text)
    ensures ServedAgain(w, d, s, r, id, later)
  {
    var first, s1 := ListIsScanned(w, d, s, r, key, later, text);
    var second, s2, p := ScanCanMatch(w, d, s1, later, id);
    RunsConcat(w, d, s, first, s1, second, s2);
    var store := StoreVerified(later);
    RunsOn(w, d, s, first + second, s2, store);
    assert StaysInactive(first + second + [store], id);
    assert ServedAs(Next(w, d, s2, store), r, id, later);
  }

  lemma ListedIsServed(w: Crypto, d: int, s: Cluster, r: int, id: int, key: CandidateKey, later: int)
    requires d >= 0 && Started(s) && r in s.replicas && later !in s.calls && s.replicas[r].verified.entries == map[]
    requires Inactive(Present(s).db, id) && ListedUnder(w, s, r, id, key) && key.source in SOURCES
    ensures ServedAgain(w, d, s, r, id, later)
  {
    var q := s.replicas[r].candidates.entries[key].value;
    var k :| k in q && k.id == id && Opens(w, key, k.keyHash);
    var text: string :| |text| >= API_KEY_PREFIX_LENGTH && text[..API_KEY_PREFIX_LENGTH] == key.prefix &&
                        w.verify(k.keyHash, text);
    OpeningTextIsServed(w, d, s, r, id, key, later, text);
  }

  /** A call about to store its list stores it, and the list is served. */
  lemma FetchedIsServed(w: Crypto, d: int, s: Cluster, r: int, id: int, call: int, later: int)
    requires d >= 0 && Started(s) && CarriedBy(w, d, s, r, id, call) && s.calls[call].phase.Fetched?
    requires WellFormedRequest(s.calls[call].text, s.calls[call].source)
    requires s.replicas[r].verified.entries == map[] && Inactive(Present(s).db, id) && later !in s.calls
    ensures ServedAgain(w, d, s, r, id, later)
  {
    var store := StoreCandidates(call);
    var s1 := Next(w, d, s, store);
    assert ListedUnder(w, s1, r, id, KeyOf(s.calls[call]));
    ListedIsServed(w, d, s1, r, id, KeyOf(s.calls[call]), later);
    ServedAfter(w, d, s, store, r, id, later);
  }

  lemma ServedAfter(w: Crypto, d: int, s: Cluster, a: Action, r: int, id: int, later: int)
    requires Started(s) && Enabled(w, d, s, a) && !a.World? && ServedAgain(w, d, Next(w, d, s, a), r, id, later)
    ensures ServedAgain(w, d, s, r, id, later)
  {
    var s1 := Next(w, d, s, a);
    var actions, s' :| Runs(w, d, s1, actions, s') && StaysInactive(actions, id) && ServedAs(s', r, id, later);
    assert ([a] + actions)[1..] == actions;
    assert Runs(w, d, s, [a] + actions, s') && StaysInactive([a] + actions, id);
  }

  // ---------------------------------------------------------------- the results

  ghost predicate RequestsWellFormed(s: Cluster, r: int) {
    && (forall call | call in s.calls :: WellFormedRequest(s.calls[call].text, s.calls[call].source))
    && (r in s.replicas ==> forall key | key in s.replicas[r].candidates.entries :: key.source in SOURCES)
  }

  lemma ReachableIsWellFormed(w: Crypto, d: int, s0: Cluster, actions: seq<Action>, s: Cluster, r: int)
    requires d >= 0 && InjectiveDigest(w) && Initial(s0) && Runs(w, d, s0, actions, s)
    ensures RequestsWellFormed(s, r)
  {
    ReachableInv(w, d, s0, actions, s);
    forall call | call in s.calls ensures WellFormedRequest(s.calls[call].text, s.calls[call].source) {
      assert CallOk(w, d, s.log, s.calls[call]);
    }
    if r in s.replicas {
      assert CandidatesOk(d, s.log, s.replicas[r]);
    }
  }

  /** From a state in which the key is inactive and the verified cache was just cleared. */
  lemma CarriedIsServed(w: Crypto, d: int, s: Cluster, r: int, id: int, call: int, later: int)
    requires d >= 0 && Started(s) && RequestsWellFormed(s, r) && CarriedBy(w, d, s, r, id, call) && later !in s.calls
    requires Inactive(Present(s).db, id) && s.replicas[r].verified.entries == map[]
    ensures ServedAgain(w, d, s, r, id, later)
  {
    match s.calls[call].phase
    case Fetched(_) => FetchedIsServed(w, d, s, r, id, call, later);
    case Scanning(_) => ScanningIsServed(w, d, s, r, id, call, later);
    case Matched(_) =>
      var actions, s' := MatchedIsServed(w, d, s, call, later);
      assert StaysInactive(actions, id);
  }

  /** Clearing the verified cache leaves the calls and the lists as they are. */
  lemma DropVerifiedKeeps(w: Crypto, d: int, s: Cluster, r: int, id: int)
    requires Started(s) && r in s.replicas
    ensures var s1 := Next(w, d, s, DropVerified(r));
            && (forall call :: CarriedBy(w, d, s1, r, id, call) == CarriedBy(w, d, s, r, id, call))
            && (forall key :: ListedUnder(w, s1, r, id, key) == ListedUnder(w, s, r, id, key))
            && (Delisted(w, d, s, r, id) ==> Forgotten(w, d, s1, r, id))
  {
    var s1 := Next(w, d, s, DropVerified(r));
    assert forall call :: CarriedBy(w, d, s1, r, id, call) == CarriedBy(w, d, s, r, id, call);
    assert forall key :: ListedUnder(w, s1, r, id, key) == ListedUnder(w, s, r, id, key);
  }

  lemma ForgottenIsNotServed(w: Crypto, d: int, s: Cluster, r: int, id: int, later: int)
    requires Started(s) && Forgotten(w, d, s, r, id) && later !in s.calls
    ensures !ServedAgain(w, d, s, r, id, later)
  {
    forall actions, s' | Runs(w, d, s, actions, s') && StaysInactive(actions, id) ensures !ServedAs(s', r, id, later) {
      ForgottenForGood(w, d, s, actions, s', r, id);
    }
  }

  lemma RevocationAt(w: Crypto, d: int, s: Cluster, r: int, id: int, later: int)
    requires d >= 0 && Started(s) && r in s.replicas && RequestsWellFormed(s, r)
    requires Inactive(Present(s).db, id) && later !in s.calls
    ensures ServedAgain(w, d, Next(w, d, s, DropVerified(r)), r, id, later) <==>
            Carried(w, d, s, r, id) || Listed(w, s, r, id)
  {
    var s1 := Next(w, d, s, DropVerified(r));
    DropVerifiedKeeps(w, d, s, r, id);
    if call :| CarriedBy(w, d, s, r, id, call) {
      CarriedIsServed(w, d, s1, r, id, call, later);
    } else if key :| ListedUnder(w, s, r, id, key) {
      ListedIsServed(w, d, s1, r, id, key, later);
    } else {
      ForgottenIsNotServed(w, d, s1, r, id, later);
    }
  }

  /**
  After a revocation, when replica r clears its second cache: a call that has not started yet can still
  return with the revoked key exactly if at that moment a call in flight on r carries the key, or has
  already put it back into the first cache.
  */
  lemma RevocationHoldsExactly(w: Crypto, d: int, s0: Cluster, actions: seq<Action>, s: Cluster, r: int, id: int,
                               later: int)
    requires d >= 0 && InjectiveDigest(w) && Initial(s0) && Runs(w, d, s0, actions, s)
    requires r in s.replicas && Started(s) && Inactive(Present(s).db, id) && later !in s.calls
    ensures ServedAgain(w, d, Next(w, d, s, DropVerified(r)), r, id, later) <==>
            Carried(w, d, s, r, id) || Listed(w, s, r, id)
  {
    ReachableIsWellFormed(w, d, s0, actions, s, r);
    RevocationAt(w, d, s, r, id, later);
  }

  /**
  Revoke as a whole: the key is inactive, replica r clears its lists, anything happens, and it clears its
  principals. If no call on r carried the key at the first clearing, no new call returns with it.
  */
  lemma RevocationHolds(w: Crypto, d: int, s: Cluster, r: int, id: int, between: seq<Action>, s2: Cluster, later: int)
    requires Started(s) && r in s.replicas && Inactive(Present(s).db, id) && !Carried(w, d, s, r, id)
    requires Runs(w, d, Next(w, d, s, DropLists(r)), between, s2) && StaysInactive(between, id) && later !in s2.calls
    ensures Started(s2) && r in s2.replicas
    ensures !ServedAgain(w, d, Next(w, d, s2, DropVerified(r)), r, id, later)
  {
    var s1 := Next(w, d, s, DropLists(r));
    assert forall call :: CarriedBy(w, d, s1, r, id, call) == CarriedBy(w, d, s, r, id, call);
    assert Delisted(w, d, s1, r, id);
    DelistedForGood(w, d, s1, between, s2, r, id);
    DropVerifiedKeeps(w, d, s2, r, id);
    ForgottenIsNotServed(w, d, Next(w, d, s2, DropVerified(r)), r, id, later);
  }

  function Revoked(db: Db, id: int): Db
    requires id in db.keys
  {
    db.(keys := db.keys[id := db.keys[id].(active := false)])
  }

  /** A first call on a new replica misses the verified cache. */
  lemma FirstCallMisses(w: Crypto, d: int, snap: Snapshot, text: string, source: string, r: int, call: int)
    returns (actions: seq<Action>, s: Cluster)
    requires d >= 0 && WellFormedRequest(text, source)
    ensures Runs(w, d, Cluster([snap], map[], map[]), actions, s) && s.log == [snap]
    ensures r in s.replicas && s.replicas[r].candidates == Empty()
    ensures s.calls == map[call := Call(r, text, source, snap.at, VerifiedMissed)]
  {
    var s0 := Cluster([snap], map[], map[]);
    var a1, a2, a3 := Join(r), Start(call, r, text, source), LookVerified(call);
    var s1 := Next(w, d, s0, a1);
    var s2 := Next(w, d, s1, a2);
    assert Runs(w, d, s0, [], s0);
    RunsOn(w, d, s0, [], s0, a1);
    RunsOn(w, d, s0, [] + [a1], s1, a2);
    RunsOn(w, d, s0, [] + [a1] + [a2], s2, a3);
    actions, s := [] + [a1] + [a2] + [a3], Next(w, d, s2, a3);
  }

  /** It misses the other cache, too, and has its answer from the database. */
  lemma FirstCallFetches(w: Crypto, d: int, snap: Snapshot, text: string, source: string, q: seq<Candidate>, r: int,
                         call: int)
    returns (actions: seq<Action>, s: Cluster)
    requires d >= 0 && WellFormedRequest(text, source)
    requires IsAnswer(snap.db, snap.today, CandidateKey(text[..API_KEY_PREFIX_LENGTH], source), q)
    ensures Runs(w, d, Cluster([snap], map[], map[]), actions, s) && s.log == [snap] && r in s.replicas
    ensures s.calls == map[call := Call(r, text, source, snap.at, Fetched(q))]
  {
    var s0 := Cluster([snap], map[], map[]);
    var first, s1 := FirstCallMisses(w, d, snap, text, source, r, call);
    var look, ask := LookCandidates(call), Query(call, Got(q));
    var s2 := Next(w, d, s1, look);
    RunsOn(w, d, s0, first, s1, look);
    RunsOn(w, d, s0, first + [look], s2, ask);
    actions, s := first + [look] + [ask], Next(w, d, s2, ask);
  }

  /**
  Such a state exists for every key that authenticates: ask for the candidates, and have the key revoked
  and both caches cleared before the answer is stored. The revoked key then authenticates a later call.
  */
  lemma InFlightCallOutlivesRevoke(w: Crypto, d: int, snap: Snapshot, text: string, source: string, p: Principal,
                                   q: seq<Candidate>, r: int, call: int, later: int)
    returns (actions: seq<Action>, s: Cluster)
    requires d >= 0 && InjectiveDigest(w) && call != later
    requires Accepted(w, snap.db, snap.today, text, source, p)
    requires IsAnswer(snap.db, snap.today, CandidateKey(text[..API_KEY_PREFIX_LENGTH], source), q)
    ensures Runs(w, d, Cluster([snap], map[], map[]), actions, s) && Started(s) && r in s.replicas
    ensures Present(s).db == Revoked(snap.db, p.apiKeyId) && s.replicas[r].candidates.entries == map[]
    ensures ServedAgain(w, d, Next(w, d, s, DropVerified(r)), r, p.apiKeyId, later)
  {
    var s0 := Cluster([snap], map[], map[]);
    var fetch, s1 := FirstCallFetches(w, d, snap, text, source, q, r, call);
    var revoke := World(Snapshot(snap.at, snap.today, Revoked(snap.db, p.apiKeyId)));
    RunsOn(w, d, s0, fetch, s1, revoke);
    var s2 := Next(w, d, s1, revoke);
    RunsOn(w, d, s0, fetch + [revoke], s2, DropLists(r));
    actions, s := fetch + [revoke] + [DropLists(r)], Next(w, d, s2, DropLists(r));
    var k := CandidateOf(snap.db, p.apiKeyId);
    assert k in q && Opens(w, KeyOf(s.calls[call]), k.keyHash);
    assert CarriedBy(w, d, s, r, p.apiKeyId, call);
    RevocationHoldsExactly(w, d, s0, actions, s, r, p.apiKeyId, later);
  }

  // ---------------------------------------------------------------- blocking a user

  /** The call is about to store a principal of this user. */
  ghost predicate MatchedFor(d: int, s: Cluster, r: int, userId: int, call: int)
    requires Started(s)
  {
    InFlight(s, d, call) && s.calls[call].replica == r &&
    s.calls[call].phase.Matched? && s.calls[call].phase.p.userId == userId
  }

  /** The user is not active, and neither the verified cache of replica r nor a matched call has the user. */
  ghost predicate UserForgotten(d: int, s: Cluster, r: int, userId: int)
    requires Started(s)
  {
    && !UserActive(Present(s).db, userId) && r in s.replicas
    && (forall vk | vk in s.replicas[r].verified.entries :: s.replicas[r].verified.entries[vk].value.userId != userId)
    && (forall call :: !MatchedFor(d, s, r, userId, call))
  }

  predicate ServedFor(s: Cluster, r: int, userId: int, call: int) {
    call in s.calls && s.calls[call].replica == r &&
    s.calls[call].phase.Done? && s.calls[call].phase.result.Authenticated? &&
    s.calls[call].phase.result.principal.userId == userId
  }

  ghost predicate StaysBlocked(actions: seq<Action>, userId: int) {
    forall a | a in actions && a.World? :: !UserActive(a.snap.db, userId)
  }

  lemma StepKeepsUserForgotten(w: Crypto, d: int, s: Cluster, a: Action, r: int, userId: int)
    requires Started(s) && UserForgotten(d, s, r, userId) && Enabled(w, d, s, a)
    requires a.World? ==> !UserActive(a.snap.db, userId)
    ensures var s' := Next(w, d, s, a);
            && Started(s') && UserForgotten(d, s', r, userId)
            && forall call :: ServedFor(s', r, userId, call) ==> ServedFor(s, r, userId, call)
  {
    var s' := Next(w, d, s, a);
    if CallOf(a).Some? {
      assert !MatchedFor(d, s, r, userId, a.call);
    }
    forall call
      ensures !MatchedFor(d, s', r, userId, call) && (ServedFor(s', r, userId, call) ==> ServedFor(s, r, userId, call))
    {
      assert !MatchedFor(d, s, r, userId, call);
    }
  }

  lemma {:induction false} UserForgottenForGood(w: Crypto, d: int, s: Cluster, actions: seq<Action>, s': Cluster,
                                                r: int, userId: int)
    requires Started(s) && UserForgotten(d, s, r, userId)
    requires Runs(w, d, s, actions, s') && StaysBlocked(actions, userId)
    ensures forall call :: ServedFor(s', r, userId, call) ==> ServedFor(s, r, userId, call)
    decreases |actions|
  {
    if actions != [] {
      assert actions[0] in actions && forall a | a in actions[1..] :: a in actions;
      StepKeepsUserForgotten(w, d, s, actions[0], r, userId);
      UserForgottenForGood(w, d, Next(w, d, s, actions[0]), actions[1..], s', r, userId);
    }
  }

  ghost predicate UserServedAgain(w: Crypto, d: int, s: Cluster, r: int, userId: int, later: int) {
    exists actions, s' :: Runs(w, d, s, actions, s') && StaysBlocked(actions, userId) && ServedFor(s', r, userId, later)
  }

  /**
  After a block, when replica r drops the user's principals: a call that has not started yet can still
  return for the blocked user exactly if a call in flight on r has already matched one of the user's keys.
  */
  lemma BlockHoldsExactly(w: Crypto, d: int, s0: Cluster, actions: seq<Action>, s: Cluster, r: int, userId: int,
                          later: int)
    requires d >= 0 && InjectiveDigest(w) && Initial(s0) && Runs(w, d, s0, actions, s)
    requires r in s.replicas && Started(s) && userId > 0 && !UserActive(Present(s).db, userId) && later !in s.calls
    ensures UserServedAgain(w, d, Next(w, d, s, DropUser(r, userId)), r, userId, later) <==>
            exists call :: MatchedFor(d, s, r, userId, call)
  {
    ReachableIsWellFormed(w, d, s0, actions, s, r);
    var s1 := Next(w, d, s, DropUser(r, userId));
    assert forall call :: MatchedFor(d, s1, r, userId, call) == MatchedFor(d, s, r, userId, call);
    if call :| MatchedFor(d, s, r, userId, call) {
      assert MatchedFor(d, s1, r, userId, call);
      var more, s' := MatchedIsServed(w, d, s1, call, later);
      assert ServedFor(s', r, userId, later);
    } else {
      assert UserForgotten(d, s1, r, userId);
      forall more, s' | Runs(w, d, s1, more, s') && StaysBlocked(more, userId)
        ensures !ServedFor(s', r, userId, later)
      {
        UserForgottenForGood(w, d, s1, more, s', r, userId);
      }
    }
  }
}
