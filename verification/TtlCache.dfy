/**
The in-process TTL cache (internal/cache/ttl.go).

`State` with its step functions is the cache as a value; the class `TTL` is the mutable object,
each method of which is proved to take exactly that step. `LatestSet` reads a history of operations
without any cache at all: the last Set of a key that nothing has removed since. The main result
is that every Get of every history answers what the history says.
*/
module TtlCache {
  import opened Options

  /** Times are in nanoseconds. */
  const SECOND := 1_000_000_000

  /** The hit and miss counters are unsigned 64-bit and wrap. */
  const COUNTER_MODULUS := 0x1_0000_0000_0000_0000

  datatype Entry<V> = Entry(value: V, expiresAt: int)

  datatype State<!K, V> = State(entries: map<K, Entry<V>>, hits: nat, misses: nat)

  datatype Read<!K, V> = Read(state: State<K, V>, answer: Option<V>)

  function Empty<K, V>(): State<K, V> {
    State(map[], 0, 0)
  }

  function Bump(n: nat): nat {
    (n + 1) % COUNTER_MODULUS
  }

  function GetStep<K, V>(s: State<K, V>, ttl: int, key: K, now: int): Read<K, V> {
    if ttl <= 0 then Read(s, None)
    else if key !in s.entries then Read(s.(misses := Bump(s.misses)), None)
    else if now >= s.entries[key].expiresAt then
      Read(State(s.entries - {key}, s.hits, Bump(s.misses)), None)
    else Read(s.(hits := Bump(s.hits)), Some(s.entries[key].value))
  }

  function SetStep<K, V>(s: State<K, V>, ttl: int, key: K, value: V, now: int): State<K, V> {
    if ttl <= 0 then s else s.(entries := s.entries[key := Entry(value, now + ttl)])
  }

  function DeleteStep<K, V>(s: State<K, V>, key: K): State<K, V> {
    s.(entries := s.entries - {key})
  }

  function DeleteWhereStep<K, V>(s: State<K, V>, match_: (K, V) -> bool): State<K, V> {
    s.(entries := map k | k in s.entries && !match_(k, s.entries[k].value) :: s.entries[k])
  }

  function ClearStep<K, V>(s: State<K, V>): State<K, V> {
    s.(entries := map[])
  }

  /** What a Get at time now would answer. */
  function Peek<K, V>(s: State<K, V>, ttl: int, key: K, now: int): Option<V> {
    GetStep(s, ttl, key, now).answer
  }

  // ---------------------------------------------------------------- the mutable cache

  class TTL<K(==), V> {
    const ttl: int
    var entries: map<K, Entry<V>>
    var hits: nat
    var misses: nat

    ghost function View(): State<K, V>
      reads this
    {
      State(entries, hits, misses)
    }

    constructor (ttl: int)
      ensures this.ttl == ttl && View() == Empty()
    {
      this.ttl := ttl;
      entries := map[];
      hits, misses := 0, 0;
    }

    method Get(key: K, now: int) returns (answer: Option<V>)
      modifies this
      ensures Read(View(), answer) == GetStep(old(View()), ttl, key, now)
    {
      if ttl <= 0 {
        return None;
      }
      if key !in entries {
        misses := Bump(misses);
        return None;
      }
      var entry := entries[key];
      if now >= entry.expiresAt {
        entries := entries - {key};
        misses := Bump(misses);
        return None;
      }
      hits := Bump(hits);
      return Some(entry.value);
    }

    method Set(key: K, value: V, now: int)
      modifies this
      ensures View() == SetStep(old(View()), ttl, key, value, now)
    {
      if ttl <= 0 {
        return;
      }
      entries := entries[key := Entry(value, now + ttl)];
    }

    method Delete(key: K)
      modifies this
      ensures View() == DeleteStep(old(View()), key)
    {
      entries := entries - {key};
    }

    /** Visits the keys in any order and deletes the matching ones while it iterates. */
    method DeleteWhere(match_: (K, V) -> bool)
      modifies this
      ensures View() == DeleteWhereStep(old(View()), match_)
    {
      ghost var before := entries;
      var pending := entries.Keys;
      while pending != {}
        invariant hits == old(hits) && misses == old(misses)
        invariant pending <= before.Keys
        invariant forall k :: k in entries <==> k in before && (k in pending || !match_(k, before[k].value))
        invariant forall k | k in entries :: entries[k] == before[k]
        decreases pending
      {
        var key :| key in pending;
        if match_(key, entries[key].value) {
          entries := entries - {key};
        }
        pending := pending - {key};
      }
      assert entries == DeleteWhereStep(old(View()), match_).entries;
    }

    method Clear()
      modifies this
      ensures View() == ClearStep(old(View()))
    {
      entries := map[];
    }

    /** Whatever operations led here, the two numbers together count the Gets among them. */
    method Stats() returns (h: nat, m: nat)
      ensures h == hits && m == misses
      ensures ttl > 0 ==> forall history | Run(ttl, history) == View() ::
                (h + m) % COUNTER_MODULUS == Gets(history) % COUNTER_MODULUS
      ensures ttl <= 0 ==> forall history | Run(ttl, history) == View() :: h == m == 0
    {
      forall history | Run(ttl, history) == View()
        ensures ttl > 0 ==> (hits + misses) % COUNTER_MODULUS == Gets(history) % COUNTER_MODULUS
        ensures ttl <= 0 ==> hits == misses == 0
      {
        if ttl > 0 {
          EveryGetIsCounted(ttl, history);
        } else {
          NonPositiveTtlStoresNothing(ttl, history);
        }
      }
      return hits, misses;
    }
  }

  // ---------------------------------------------------------------- histories

  datatype Op<!K, !V> =
    | Get(key: K, at: int)
    | Set(key: K, value: V, at: int)
    | Delete(key: K)
    | DeleteWhere(match_: (K, V) -> bool)
    | Clear

  datatype Stamped<V> = Stamped(value: V, at: int)

  function Apply<K, V>(s: State<K, V>, ttl: int, op: Op<K, V>): State<K, V> {
    match op
    case Get(key, at) => GetStep(s, ttl, key, at).state
    case Set(key, value, at) => SetStep(s, ttl, key, value, at)
    case Delete(key) => DeleteStep(s, key)
    case DeleteWhere(match_) => DeleteWhereStep(s, match_)
    case Clear => ClearStep(s)
  }

  function Run<K, V>(ttl: int, history: seq<Op<K, V>>): State<K, V> {
    if history == [] then Empty() else Apply(Run(ttl, history[..|history| - 1]), ttl, history[|history| - 1])
  }

  /** The latest Set of key that no later operation removed. A Get removes nothing here. */
  ghost function LatestSet<K, V>(history: seq<Op<K, V>>, key: K): Option<Stamped<V>> {
    if history == [] then None
    else
      var earlier := LatestSet(history[..|history| - 1], key);
      match history[|history| - 1]
      case Get(_, _) => earlier
      case Set(k, value, at) => if k == key then Some(Stamped(value, at)) else earlier
      case Delete(k) => if k == key then None else earlier
      case DeleteWhere(match_) => if earlier.Some? && match_(key, earlier.value.value) then None else earlier
      case Clear => None
  }

  function Gets<K, V>(history: seq<Op<K, V>>): nat {
    if history == [] then 0
    else Gets(history[..|history| - 1]) + if history[|history| - 1].Get? then 1 else 0
  }

  ghost predicate Timed<K, V>(op: Op<K, V>) {
    op.Get? || op.Set?
  }

  /** The clock readings never decrease along the history, and now is not before any of them. */
  ghost predicate ClockUpTo<K, V>(history: seq<Op<K, V>>, now: int) {
    (forall i | 0 <= i < |history| && Timed(history[i]) :: history[i].at <= now) &&
    forall i, j | 0 <= i < j < |history| && Timed(history[i]) && Timed(history[j]) :: history[i].at <= history[j].at
  }

  /** What the entry of one key must look like after a history: gone only if removed or expired. */
  ghost predicate Agrees<K, V>(s: State<K, V>, ttl: int, history: seq<Op<K, V>>, key: K, now: int) {
    match LatestSet(history, key)
    case None => key !in s.entries
    case Some(Stamped(value, at)) =>
      if key in s.entries then s.entries[key] == Entry(value, at + ttl) else at + ttl <= now
  }

  lemma {:induction false} EntriesFollowHistory<K, V>(ttl: int, history: seq<Op<K, V>>, key: K, now: int)
    requires ttl > 0 && ClockUpTo(history, now)
    ensures Agrees(Run(ttl, history), ttl, history, key, now)
    decreases |history|
  {
    if history != [] {
      var earlier, op := history[..|history| - 1], history[|history| - 1];
      var then_ := if Timed(op) then op.at else now;
      assert ClockUpTo(earlier, then_);
      EntriesFollowHistory(ttl, earlier, key, then_);
    }
  }

  /**
  A Get at the end of any history with a non-decreasing clock hits exactly when the key's latest
  Set has not been removed since and is younger than the TTL, and then it returns that value.
  */
  lemma {:induction false} GetAnswersHistory<K, V>(ttl: int, history: seq<Op<K, V>>, key: K, now: int)
    requires ttl > 0 && ClockUpTo(history, now)
    ensures Peek(Run(ttl, history), ttl, key, now) ==
            match LatestSet(history, key)
            case None => None
            case Some(Stamped(value, at)) => if now < at + ttl then Some(value) else None
  {
    EntriesFollowHistory(ttl, history, key, now);
  }

  /** A cache with a non-positive TTL stores nothing and counts nothing. */
  lemma {:induction false} NonPositiveTtlStoresNothing<K, V>(ttl: int, history: seq<Op<K, V>>)
    requires ttl <= 0
    ensures Run(ttl, history) == Empty()
  {
    if history != [] {
      NonPositiveTtlStoresNothing(ttl, history[..|history| - 1]);
      assert Run(ttl, history).entries == map[];
    }
  }

  /** The Gets of a history that were answered with a value. */
  function Answered<K(==), V>(ttl: int, history: seq<Op<K, V>>): nat {
    if history == [] then 0
    else
      var earlier, op := history[..|history| - 1], history[|history| - 1];
      Answered(ttl, earlier) + if op.Get? && Peek(Run(ttl, earlier), ttl, op.key, op.at).Some? then 1 else 0
  }

  /** Hits count exactly those, modulo the width of the counter. */
  lemma {:induction false} HitsCountAnswers<K, V>(ttl: int, history: seq<Op<K, V>>)
    requires ttl > 0
    ensures Run(ttl, history).hits % COUNTER_MODULUS == Answered(ttl, history) % COUNTER_MODULUS
  {
    if history != [] {
      var earlier := history[..|history| - 1];
      HitsCountAnswers(ttl, earlier);
      CountOneMore(Run(ttl, earlier).hits, 0, Answered(ttl, earlier));
    }
  }

  lemma CountOneMore(a: nat, b: nat, total: nat)
    requires (a + b) % COUNTER_MODULUS == total % COUNTER_MODULUS
    ensures (Bump(a) + b) % COUNTER_MODULUS == (total + 1) % COUNTER_MODULUS
  {
    var q := (a + 1) / COUNTER_MODULUS;
    assert Bump(a) == a + 1 - q * COUNTER_MODULUS;
    var u, w := (a + b) / COUNTER_MODULUS, total / COUNTER_MODULUS;
    assert total == a + b + (w - u) * COUNTER_MODULUS;
    assert Bump(a) + b == total + 1 - (w - u + q) * COUNTER_MODULUS;
  }

  /** Hits and misses together count the Gets, modulo the width of the counters. */
  lemma {:induction false} EveryGetIsCounted<K, V>(ttl: int, history: seq<Op<K, V>>)
    requires ttl > 0
    ensures (Run(ttl, history).hits + Run(ttl, history).misses) % COUNTER_MODULUS == Gets(history) % COUNTER_MODULUS
  {
    if history != [] {
      var earlier, op := history[..|history| - 1], history[|history| - 1];
      EveryGetIsCounted(ttl, earlier);
      var s := Run(ttl, earlier);
      if op.Get? {
        CountOneMore(s.hits, s.misses, Gets(earlier));
        CountOneMore(s.misses, s.hits, Gets(earlier));
      }
    }
  }
}
