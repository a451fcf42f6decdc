/**
Convergence of replicas by revision number: the transactional Save and Delete of the credential store
(internal/store/coreauth_store.go) bump a counter, and every replica polls it and restarts when it
moves (internal/watcher/revision_poller.go).

Transactions interleave and may fail at any step. A write becomes visible at commit; incrementing the
revision row locks it until the transaction ends. The poller runs in its own goroutine, so a replica may
read its baseline before or after it loads the accounts (cmd/cliproxy/main.go starts it unsynchronised).
*/
module Revisions {
  import opened Options

  datatype Change<R> = Put(id: string, row: R) | Remove(id: string)

  datatype TxPhase = Begun | Written | Bumped(to: int) | Audited(to: int)

  /** A Save carries an audit entry when its context asks for one; a Delete never does. */
  datatype Tx<R> = Tx(change: Change<R>, wantsAudit: bool, phase: TxPhase)

  /** loadedAt records the revision that was current when the snapshot was taken. */
  datatype Replica<R> = Replica(
    baseline: Option<int>, snapshot: Option<map<string, R>>, loadedAt: int, shuttingDown: bool)

  /** history lists the table after each commit, starting with the first table. */
  datatype State<!R> = State(
    table: map<string, R>, revision: int, history: seq<map<string, R>>, txs: map<int, Tx<R>>,
    replicas: map<int, Replica<R>>)

  datatype Action<R> =
    | Begin(tx: int, change: Change<R>, wantsAudit: bool)
    | Write(tx: int)
    | Bump(tx: int)
    | Audit(tx: int)
    | Commit(tx: int)
    | Rollback(tx: int)
    | Join(replica: int)
    | ReadBaseline(replica: int)
    | Load(replica: int)
    | Poll(replica: int)
    | PollFails(replica: int)

  function Applied<R>(table: map<string, R>, change: Change<R>): map<string, R> {
    match change
    case Put(id, row) => table[id := row]
    case Remove(id) => table - {id}
  }

  predicate HoldsRevision<R>(tx: Tx<R>) {
    tx.phase.Bumped? || tx.phase.Audited?
  }

  predicate Committable<R>(tx: Tx<R>) {
    tx.phase.Audited? || (tx.phase.Bumped? && !tx.wantsAudit)
  }

  ghost predicate Enabled<R>(s: State<R>, a: Action<R>) {
    match a
    case Begin(t, _, _) => t !in s.txs
    case Write(t) => t in s.txs && s.txs[t].phase.Begun?
    case Bump(t) => t in s.txs && s.txs[t].phase.Written? && forall u | u in s.txs :: !HoldsRevision(s.txs[u])
    case Audit(t) => t in s.txs && s.txs[t].phase.Bumped? && s.txs[t].wantsAudit
    case Commit(t) => t in s.txs && Committable(s.txs[t])
    case Rollback(t) => t in s.txs
    case Join(r) => r !in s.replicas
    case ReadBaseline(r) => r in s.replicas && s.replicas[r].baseline.None?
    case Load(r) => r in s.replicas && s.replicas[r].snapshot.None?
    case Poll(r) => r in s.replicas && s.replicas[r].baseline.Some? && !s.replicas[r].shuttingDown
    case PollFails(r) => r in s.replicas && s.replicas[r].baseline.Some? && !s.replicas[r].shuttingDown
  }

  function WithPhase<R>(s: State<R>, t: int, phase: TxPhase): State<R>
    requires t in s.txs
  {
    s.(txs := s.txs[t := s.txs[t].(phase := phase)])
  }

  ghost function Next<R>(s: State<R>, a: Action<R>): State<R>
    requires Enabled(s, a)
  {
    match a
    case Begin(t, change, wantsAudit) => s.(txs := s.txs[t := Tx(change, wantsAudit, Begun)])
    case Write(t) => WithPhase(s, t, Written)
    case Bump(t) => WithPhase(s, t, Bumped(s.revision + 1))
    case Audit(t) => WithPhase(s, t, Audited(s.txs[t].phase.to))
    case Commit(t) =>
      var table := Applied(s.table, s.txs[t].change);
      s.(table := table, revision := s.txs[t].phase.to, history := s.history + [table], txs := s.txs - {t})
    case Rollback(t) => s.(txs := s.txs - {t})
    case Join(r) => s.(replicas := s.replicas[r := Replica(None, None, 0, false)])
    case ReadBaseline(r) => s.(replicas := s.replicas[r := s.replicas[r].(baseline := Some(s.revision))])
    case Load(r) => s.(replicas := s.replicas[r := s.replicas[r].(snapshot := Some(s.table), loadedAt := s.revision)])
    case Poll(r) =>
      s.(replicas := s.replicas[r := s.replicas[r].(shuttingDown := s.revision != s.replicas[r].baseline.value)])
    case PollFails(r) => s
  }

  ghost predicate Initial<R>(s: State<R>) {
    s.history == [s.table] && s.txs == map[] && s.replicas == map[]
  }

  ghost predicate IsRun<R>(states: seq<State<R>>, actions: seq<Action<R>>) {
    && |states| == |actions| + 1 && Initial(states[0])
    && forall i | 0 <= i < |actions| :: Enabled(states[i], actions[i]) && states[i + 1] == Next(states[i], actions[i])
  }

  function Commits<R>(actions: seq<Action<R>>): nat {
    if actions == [] then 0
    else Commits(actions[..|actions| - 1]) + if actions[|actions| - 1].Commit? then 1 else 0
  }

  /** No transaction commits from i on and before k. */
  ghost predicate NoCommit<R>(actions: seq<Action<R>>, i: nat, k: nat) {
    forall c | i <= c < k && c < |actions| :: !actions[c].Commit?
  }

  // ---------------------------------------------------------------- the invariant

  /** first is the revision of history[0]. */
  ghost predicate Inv<R>(first: int, s: State<R>) {
    && |s.history| > 0 && s.table == s.history[|s.history| - 1]
    && s.revision == first + |s.history| - 1
    && (forall t | t in s.txs && HoldsRevision(s.txs[t]) :: s.txs[t].phase.to == s.revision + 1)
    && (forall t, u | t in s.txs && u in s.txs && HoldsRevision(s.txs[t]) && HoldsRevision(s.txs[u]) :: t == u)
    && (forall r | r in s.replicas :: ReplicaOk(first, s, s.replicas[r]))
  }

  ghost predicate ReplicaOk<R>(first: int, s: State<R>, r: Replica<R>) {
    && (r.baseline.Some? ==> first <= r.baseline.value <= s.revision)
    && (r.shuttingDown ==> r.baseline.Some?)
    && (r.snapshot.Some? ==>
          && first <= r.loadedAt <= s.revision && r.loadedAt - first < |s.history|
          && r.snapshot.value == s.history[r.loadedAt - first])
  }

  lemma StepKeepsInv<R>(first: int, s: State<R>, a: Action<R>)
    requires Inv(first, s) && Enabled(s, a)
    ensures Inv(first, Next(s, a))
  {
    if a.Commit? {
      var s' := Next(s, a);
      assert forall i | 0 <= i < |s.history| :: s'.history[i] == s.history[i];
    }
  }

  lemma {:induction false} RunKeepsInv<R>(states: seq<State<R>>, actions: seq<Action<R>>, k: nat)
    requires IsRun(states, actions) && k <= |actions|
    ensures Inv(states[0].revision, states[k])
  {
    if k > 0 {
      RunKeepsInv(states, actions, k - 1);
      StepKeepsInv(states[0].revision, states[k - 1], actions[k - 1]);
    }
  }

  // ---------------------------------------------------------------- the results

  /** Only a commit moves the revision, by one, and only a commit changes the table. */
  lemma StepMovesRevision<R>(states: seq<State<R>>, actions: seq<Action<R>>, k: nat)
    requires IsRun(states, actions) && k < |actions|
    ensures states[k + 1].revision == states[k].revision + if actions[k].Commit? then 1 else 0
    ensures !actions[k].Commit? ==> states[k + 1].table == states[k].table
  {
    RunKeepsInv(states, actions, k);
    assert Enabled(states[k], actions[k]) && states[k + 1] == Next(states[k], actions[k]);
  }

  /** A commit changes the row of its change and no other; nothing else changes any row. */
  lemma CommitChangesOneRow<R>(states: seq<State<R>>, actions: seq<Action<R>>, k: nat)
    requires IsRun(states, actions) && k < |actions|
    ensures !actions[k].Commit? ==> states[k + 1].table == states[k].table
    ensures actions[k].Commit? ==>
              && actions[k].tx in states[k].txs
              && var change := states[k].txs[actions[k].tx].change;
                 && states[k + 1].table - {change.id} == states[k].table - {change.id}
                 && (change.Put? ==> change.id in states[k + 1].table && states[k + 1].table[change.id] == change.row)
                 && (change.Remove? ==> change.id !in states[k + 1].table)
  {
    assert Enabled(states[k], actions[k]) && states[k + 1] == Next(states[k], actions[k]);
  }

  /** The change that a transaction commits is the one it began with. */
  lemma {:induction false} ChangeIsKept<R>(states: seq<State<R>>, actions: seq<Action<R>>, i: nat, k: nat, t: int)
    requires IsRun(states, actions) && i < k <= |actions| && actions[i].Begin? && actions[i].tx == t
    requires forall j | i < j < k :: actions[j] != Commit(t) && actions[j] != Rollback(t)
    ensures t in states[k].txs && states[k].txs[t].change == actions[i].change
    decreases k
  {
    if k == i + 1 {
      assert Enabled(states[i], actions[i]) && states[k] == Next(states[i], actions[i]);
    } else {
      ChangeIsKept(states, actions, i, k - 1, t);
      assert Enabled(states[k - 1], actions[k - 1]) && states[k] == Next(states[k - 1], actions[k - 1]);
    }
  }

  /**
  A transaction that nobody disturbs commits its change and moves the revision by one. With an audit entry to
  write, it cannot commit before that is written.
  */
  lemma UndisturbedTransaction<R>(states: seq<State<R>>, actions: seq<Action<R>>, t: int, change: Change<R>,
                                  wantsAudit: bool)
    returns (states': seq<State<R>>, actions': seq<Action<R>>)
    requires IsRun(states, actions) && t !in states[|actions|].txs
    requires forall u | u in states[|actions|].txs :: !HoldsRevision(states[|actions|].txs[u])
    ensures IsRun(states', actions') && |actions'| == |actions| + if wantsAudit then 5 else 4
    ensures var s, s' := states[|actions|], states'[|actions'|];
            && s'.revision == s.revision + 1 && s'.table == Applied(s.table, change)
            && s'.txs == s.txs && s'.replicas == s.replicas
  {
    var s := states[|actions|];
    states', actions' := Extend(states, actions, Begin(t, change, wantsAudit));
    states', actions' := Extend(states', actions', Write(t));
    states', actions' := Extend(states', actions', Bump(t));
    assert wantsAudit ==> !Enabled(states'[|actions'|], Commit(t));
    if wantsAudit {
      states', actions' := Extend(states', actions', Audit(t));
    }
    states', actions' := Extend(states', actions', Commit(t));
    assert states'[|actions'|].txs == s.txs;
  }

  /** A transaction can be rolled back at any step: nothing is changed, and the revision row is free again. */
  lemma RollbackLeavesNothing<R>(states: seq<State<R>>, actions: seq<Action<R>>, k: nat, t: int)
    requires IsRun(states, actions) && k <= |actions| && t in states[k].txs
    ensures Enabled(states[k], Rollback(t))
    ensures var s' := Next(states[k], Rollback(t));
            && s'.table == states[k].table && s'.revision == states[k].revision && t !in s'.txs
            && (HoldsRevision(states[k].txs[t]) ==> forall u | u in s'.txs :: !HoldsRevision(s'.txs[u]))
  {
    RunKeepsInv(states, actions, k);
  }

  /** A poll can fail whenever it can succeed, and then it can be tried again from the same state. */
  lemma FailedPollIsRetried<R>(s: State<R>, r: int)
    requires Enabled(s, Poll(r))
    ensures Enabled(s, PollFails(r)) && Enabled(Next(s, PollFails(r)), Poll(r))
    ensures Next(s, PollFails(r)).replicas == s.replicas
  {
  }

  /** However transactions overlap and fail, the revision counts the committed changes. */
  lemma {:induction false} RevisionCountsCommits<R>(states: seq<State<R>>, actions: seq<Action<R>>, k: nat)
    requires IsRun(states, actions) && k <= |actions|
    ensures states[k].revision == states[0].revision + Commits(actions[..k])
  {
    if k > 0 {
      RevisionCountsCommits(states, actions, k - 1);
      StepMovesRevision(states, actions, k - 1);
      assert actions[..k][..k - 1] == actions[..k - 1];
    }
  }

  /** The revision has moved between two moments exactly if a transaction has committed between them. */
  lemma {:induction false} RevisionMovesByCommits<R>(states: seq<State<R>>, actions: seq<Action<R>>, i: nat, k: nat)
    requires IsRun(states, actions) && i <= k <= |actions|
    ensures states[i].revision <= states[k].revision
    ensures states[i].revision == states[k].revision <==> NoCommit(actions, i, k)
    ensures NoCommit(actions, i, k) ==> states[i].table == states[k].table
    decreases k
  {
    if i < k {
      RevisionMovesByCommits(states, actions, i, k - 1);
      StepMovesRevision(states, actions, k - 1);
      assert NoCommit(actions, i, k) <==> NoCommit(actions, i, k - 1) && !actions[k - 1].Commit?;
    }
  }

  /** What a replica holds at k from the baseline it read at i. */
  lemma BaselineAt<R>(states: seq<State<R>>, actions: seq<Action<R>>, i: nat, k: nat, r: int)
    requires IsRun(states, actions) && i < k <= |actions| && actions[i] == ReadBaseline(r)
    ensures r in states[k].replicas && states[k].replicas[r].baseline == Some(states[i].revision)
  {
    assert Enabled(states[i], actions[i]) && states[i + 1] == Next(states[i], actions[i]);
    BaselineStays(states, actions, i + 1, k, r);
  }

  lemma SnapshotAt<R>(states: seq<State<R>>, actions: seq<Action<R>>, j: nat, k: nat, r: int)
    requires IsRun(states, actions) && j < k <= |actions| && actions[j] == Load(r)
    ensures r in states[k].replicas && states[k].replicas[r].snapshot == Some(states[j].table)
  {
    assert Enabled(states[j], actions[j]) && states[j + 1] == Next(states[j], actions[j]);
    SnapshotStays(states, actions, j + 1, k, r);
  }

  /**
  A replica that read its baseline at i and polls at k starts its shutdown exactly if some transaction has
  committed in between.
  */
  lemma PollShutsDownExactly<R>(states: seq<State<R>>, actions: seq<Action<R>>, i: nat, k: nat, r: int)
    requires IsRun(states, actions) && i < k < |actions| && actions[i] == ReadBaseline(r) && actions[k] == Poll(r)
    ensures r in states[k + 1].replicas
    ensures states[k + 1].replicas[r].shuttingDown <==> exists c | i <= c < k :: actions[c].Commit?
  {
    BaselineAt(states, actions, i, k, r);
    RevisionMovesByCommits(states, actions, i, k);
    assert Enabled(states[k], actions[k]) && states[k + 1] == Next(states[k], actions[k]);
  }

  /** So, with the baseline read before the load, a commit after the load makes every later poll start the shutdown. */
  lemma ChangeAfterLoadShutsDown<R>(states: seq<State<R>>, actions: seq<Action<R>>, i: nat, j: nat, c: nat, k: nat,
                                    r: int)
    requires IsRun(states, actions) && i < j < c < k < |actions|
    requires actions[i] == ReadBaseline(r) && actions[j] == Load(r) && actions[c].Commit? && actions[k] == Poll(r)
    ensures r in states[k + 1].replicas && states[k + 1].replicas[r].shuttingDown
  {
    PollShutsDownExactly(states, actions, i, k, r);
  }

  /**
  A replica loads at j and reads its baseline at i, in either order, and a poll at k is quiet: its snapshot
  misses no committed change exactly if none was committed after the load and before the baseline; and then
  it equals the table.
  */
  lemma QuietPollMeansCurrent<R>(states: seq<State<R>>, actions: seq<Action<R>>, i: nat, j: nat, k: nat, r: int)
    requires IsRun(states, actions) && i < k < |actions| && j < k
    requires actions[i] == ReadBaseline(r) && actions[j] == Load(r) && actions[k] == Poll(r)
    requires r in states[k + 1].replicas && !states[k + 1].replicas[r].shuttingDown
    ensures NoCommit(actions, j, k) <==> NoCommit(actions, j, i)
    ensures NoCommit(actions, j, i) ==> states[k].replicas[r].snapshot == Some(states[k].table)
  {
    PollShutsDownExactly(states, actions, i, k, r);
    assert NoCommit(actions, i, k);
    SnapshotAt(states, actions, j, k, r);
    RevisionMovesByCommits(states, actions, j, k);
    assert forall c | j <= c < k && i <= c :: !actions[c].Commit?;
  }

  /** If the baseline was read first, every load that follows is covered by it. */
  lemma {:induction false} BaselineFirstCoversLoad<R>(states: seq<State<R>>, actions: seq<Action<R>>, i: nat, j: nat,
                                                      k: nat, r: int)
    requires IsRun(states, actions) && i < j < k <= |actions|
    requires actions[i] == ReadBaseline(r) && actions[j] == Load(r)
    ensures r in states[k].replicas
    ensures var c := states[k].replicas[r];
            && c.baseline.Some? && c.snapshot.Some?
            && c.baseline.value == states[i].revision && c.loadedAt == states[j].revision
            && c.baseline.value <= c.loadedAt
  {
    BaselineStays(states, actions, i + 1, j, r);
    BaselineStays(states, actions, j + 1, k, r);
    SnapshotStays(states, actions, j + 1, k, r);
    RunKeepsInv(states, actions, j);
    assert ReplicaOk(states[0].revision, states[j], states[j].replicas[r]);
  }

  lemma {:induction false} BaselineStays<R>(states: seq<State<R>>, actions: seq<Action<R>>, i: nat, k: nat, r: int)
    requires IsRun(states, actions) && i <= k <= |actions|
    requires r in states[i].replicas && states[i].replicas[r].baseline.Some?
    ensures r in states[k].replicas && states[k].replicas[r].baseline == states[i].replicas[r].baseline
    decreases k
  {
    if i < k {
      BaselineStays(states, actions, i, k - 1, r);
      assert Enabled(states[k - 1], actions[k - 1]);
    }
  }

  lemma {:induction false} SnapshotStays<R>(states: seq<State<R>>, actions: seq<Action<R>>, i: nat, k: nat, r: int)
    requires IsRun(states, actions) && i <= k <= |actions|
    requires r in states[i].replicas && states[i].replicas[r].snapshot.Some?
    ensures r in states[k].replicas && states[k].replicas[r].snapshot == states[i].replicas[r].snapshot
    ensures states[k].replicas[r].loadedAt == states[i].replicas[r].loadedAt
    decreases k
  {
    if i < k {
      SnapshotStays(states, actions, i, k - 1, r);
      assert Enabled(states[k - 1], actions[k - 1]);
    }
  }

  lemma Extend<R>(states: seq<State<R>>, actions: seq<Action<R>>, a: Action<R>)
    returns (states': seq<State<R>>, actions': seq<Action<R>>)
    requires IsRun(states, actions) && Enabled(states[|actions|], a)
    ensures IsRun(states', actions') && states'[0] == states[0] && actions' == actions + [a]
    ensures states'[|actions'|] == Next(states[|actions|], a)
  {
    states', actions' := states + [Next(states[|actions|], a)], actions + [a];
  }

  /** A replica that has loaded, and a transaction that has not written yet. */
  lemma LoadedBeforeChange<R>(table: map<string, R>, revision: int, change: Change<R>)
    returns (states: seq<State<R>>, actions: seq<Action<R>>)
    ensures IsRun(states, actions) && states[0].table == table && states[0].revision == revision
    ensures var s0 := State(table, revision, [table], map[], map[]);
            var s1 := Next(s0, Join(1));
            var s2 := Next(s1, Load(1));
            states[|actions|] == Next(s2, Begin(7, change, false))
  {
    states, actions := [State(table, revision, [table], map[], map[])], [];
    states, actions := Extend(states, actions, Join(1));
    states, actions := Extend(states, actions, Load(1));
    states, actions := Extend(states, actions, Begin(7, change, false));
  }

  /** Loaded, then a change, then the baseline: the replica polls quietly over a stale snapshot. */
  lemma LateBaselineMissesChange<R>(table: map<string, R>, revision: int, change: Change<R>)
    returns (states: seq<State<R>>, actions: seq<Action<R>>)
    requires Applied(table, change) != table
    ensures IsRun(states, actions) && states[0].table == table && states[0].revision == revision
    ensures var last := states[|actions|];
            && 1 in last.replicas && last.replicas[1].snapshot == Some(table) && last.table == Applied(table, change)
            && last.replicas[1].baseline == Some(last.revision) && !last.replicas[1].shuttingDown
  {
    states, actions := LoadedBeforeChange(table, revision, change);
    states, actions := Extend(states, actions, Write(7));
    states, actions := Extend(states, actions, Bump(7));
    states, actions := Extend(states, actions, Commit(7));
    states, actions := Extend(states, actions, ReadBaseline(1));
    states, actions := Extend(states, actions, Poll(1));
  }

  // ---------------------------------------------------------------- the poller's loop

  /** One wake-up of the select: the context ends, or the ticker fires and the read fails or succeeds. */
  datatype Wake = Cancelled | ReadFails | Reads(value: int)

  /** The first wake-up that ends the loop is a successful read of another value than the baseline. */
  ghost predicate EndsByChange(baseline: int, wakes: seq<Wake>) {
    exists i | 0 <= i < |wakes| ::
      && wakes[i].Reads? && wakes[i].value != baseline
      && forall j | 0 <= j < i :: wakes[j] == ReadFails || wakes[j] == Reads(baseline)
  }

  /** RevisionPoller.Run over the wake-ups it gets; endsInJitter says the context ends during the jitter wait. */
  method PollerRun(first: Option<int>, wakes: seq<Wake>, jitter: int, endsInJitter: bool) returns (shutdown: bool)
    ensures shutdown <==> first.Some? && EndsByChange(first.value, wakes) && !(jitter > 0 && endsInJitter)
  {
    if first.None? {
      return false;
    }
    var baseline := first.value;
    for i := 0 to |wakes|
      invariant forall j | 0 <= j < i :: wakes[j] == ReadFails || wakes[j] == Reads(baseline)
    {
      match wakes[i] {
        case Cancelled =>
          return false;
        case ReadFails =>
          continue;
        case Reads(value) =>
          if value == baseline {
            continue;
          }
          if jitter > 0 && endsInJitter {
            return false;
          }
          return true;
      }
    }
    return false;
  }

  // ---------------------------------------------------------------- the loop among the replicas

  /** What the poller of replica r sees at each of its wake-ups from i on and before k. */
  function WakesOf<R>(states: seq<State<R>>, actions: seq<Action<R>>, r: int, i: nat, k: nat): seq<Wake>
    requires i <= k <= |actions| < |states|
  {
    if i == k then []
    else WakesOf(states, actions, r, i, k - 1) + WakeOf(states[k - 1], actions[k - 1], r)
  }

  ghost predicate Quiet(baseline: int, wakes: seq<Wake>) {
    forall i | 0 <= i < |wakes| :: wakes[i] == ReadFails || wakes[i] == Reads(baseline)
  }

  lemma WakesEndOrStayQuiet(baseline: int, wakes: seq<Wake>, wake: Wake)
    requires Quiet(baseline, wakes) && !wake.Cancelled?
    ensures if wake == ReadFails || wake == Reads(baseline) then Quiet(baseline, wakes + [wake])
            else EndsByChange(baseline, wakes + [wake])
  {
    var more := wakes + [wake];
    assert more[|wakes|] == wake && forall i | 0 <= i < |wakes| :: more[i] == wakes[i];
  }

  /** The replica is shutting down if the wake-ups end the loop, and otherwise they are quiet. */
  ghost predicate Follows<R>(s: State<R>, r: int, baseline: int, wakes: seq<Wake>) {
    r in s.replicas && if s.replicas[r].shuttingDown then EndsByChange(baseline, wakes) else Quiet(baseline, wakes)
  }

  function WakeOf<R>(s: State<R>, a: Action<R>, r: int): seq<Wake> {
    if a == Poll(r) then [Reads(s.revision)] else if a == PollFails(r) then [ReadFails] else []
  }

  lemma StepFollows<R>(s: State<R>, a: Action<R>, r: int, baseline: int, wakes: seq<Wake>)
    requires Enabled(s, a) && Follows(s, r, baseline, wakes) && s.replicas[r].baseline == Some(baseline)
    ensures Follows(Next(s, a), r, baseline, wakes + WakeOf(s, a, r))
  {
    if a == Poll(r) {
      WakesEndOrStayQuiet(baseline, wakes, Reads(s.revision));
    } else if a == PollFails(r) {
      WakesEndOrStayQuiet(baseline, wakes, ReadFails);
    } else {
      assert wakes + WakeOf(s, a, r) == wakes;
    }
  }

  lemma NotShuttingDownAtFirst<R>(states: seq<State<R>>, actions: seq<Action<R>>, r: int, i: nat)
    requires IsRun(states, actions) && i < |actions| && actions[i] == ReadBaseline(r)
    ensures r in states[i + 1].replicas && !states[i + 1].replicas[r].shuttingDown
  {
    RunKeepsInv(states, actions, i);
    assert Enabled(states[i], actions[i]) && states[i + 1] == Next(states[i], actions[i]);
    assert ReplicaOk(states[0].revision, states[i], states[i].replicas[r]);
  }

  lemma {:induction false} WakesFollowReplica<R>(states: seq<State<R>>, actions: seq<Action<R>>, r: int, i: nat, k: nat)
    requires IsRun(states, actions) && i < k <= |actions| && actions[i] == ReadBaseline(r)
    ensures Follows(states[k], r, states[i].revision, WakesOf(states, actions, r, i + 1, k))
    decreases k
  {
    if k == i + 1 {
      NotShuttingDownAtFirst(states, actions, r, i);
    } else {
      WakesFollowReplica(states, actions, r, i, k - 1);
      BaselineAt(states, actions, i, k - 1, r);
      StepFollows(states[k - 1], actions[k - 1], r, states[i].revision, WakesOf(states, actions, r, i + 1, k - 1));
    }
  }

  /**
  Given what the poller of replica r reads in a run, the loop of the program starts the shutdown exactly if
  the replica of the run has done so.
  */
  lemma LoopFollowsReplica<R>(states: seq<State<R>>, actions: seq<Action<R>>, r: int, i: nat, k: nat)
    requires IsRun(states, actions) && i < k <= |actions| && actions[i] == ReadBaseline(r)
    ensures r in states[k].replicas
    ensures EndsByChange(states[i].revision, WakesOf(states, actions, r, i + 1, k)) <==>
            states[k].replicas[r].shuttingDown
  {
    WakesFollowReplica(states, actions, r, i, k);
  }
}
