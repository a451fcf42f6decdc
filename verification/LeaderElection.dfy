/**
Leader election over a Postgres advisory lock (internal/watcher/leader.go).

Any number of replicas run the retry loop, each over its own connection pool. A connection is a
database session; the advisory lock is held per session and is re-entrant, so every session carries
a count. A client-side close reaches the server later, and a connection can be lost at any moment,
also under a running job. The results say who can be inside the job and where the lock can hide.
*/
module LeaderElection {
  /** Where the client has the connection. A discarded one is closed and gone from the pool. */
  datatype Place = Pooled | Borrowed | Discarded

  /** alive is the server's view: the session exists and keeps its locks. */
  datatype Session = Session(replica: int, place: Place, alive: bool, count: nat)

  /** The runner's position in its loop, with the connection it holds there. */
  datatype Runner =
    | Top
    | Connected(conn: int)
    | InJob(conn: int)
    | Releasing(conn: int)
    | Pausing
    | Stopped

  datatype Cluster = Cluster(sessions: map<int, Session>, runners: map<int, Runner>)

  datatype Action =
    | Join(r: int)
    | AcquirePooled(r: int, conn: int)
    | AcquireNew(r: int, conn: int)
    | AcquireFails(r: int)
    | TryLocks(r: int)
    | TryFindsBusy(r: int)
    | TryErrors(r: int, discarded: bool, locked: bool)
    | JobReturns(r: int)
    | Unlocks(r: int)
    | UnlockFindsNotHeld(r: int)
    | UnlockErrors(r: int, executed: bool)
    | Retry(r: int)
    | Stop(r: int)
    | ServerNotices(conn: int)
    | ConnectionLost(conn: int)

  predicate HeldByOther(s: Cluster, conn: int) {
    exists c | c in s.sessions :: c != conn && s.sessions[c].count > 0
  }

  predicate At(s: Cluster, r: int, phase: Runner) {
    r in s.runners && s.runners[r] == phase
  }

  /** The runner holds a connection, which is in the session table. */
  predicate Holds(s: Cluster, r: int) {
    r in s.runners && (s.runners[r].Connected? || s.runners[r].InJob? || s.runners[r].Releasing?) &&
    s.runners[r].conn in s.sessions
  }

  predicate Enabled(s: Cluster, a: Action) {
    match a
    case Join(r) => r !in s.runners
    case AcquirePooled(r, conn) =>
      At(s, r, Top) && conn in s.sessions && s.sessions[conn].replica == r && s.sessions[conn].place.Pooled?
    case AcquireNew(r, conn) => At(s, r, Top) && conn !in s.sessions
    case AcquireFails(r) => At(s, r, Top)
    case TryLocks(r) =>
      Holds(s, r) && s.runners[r].Connected? && s.sessions[s.runners[r].conn].alive &&
          !HeldByOther(s, s.runners[r].conn)
    case TryFindsBusy(r) =>
      Holds(s, r) && s.runners[r].Connected? && s.sessions[s.runners[r].conn].alive && HeldByOther(s, s.runners[r].conn)
    case TryErrors(r, discarded, locked) =>
      Holds(s, r) && s.runners[r].Connected? &&
      (locked ==> discarded && s.sessions[s.runners[r].conn].alive && !HeldByOther(s, s.runners[r].conn))
    case JobReturns(r) => Holds(s, r) && s.runners[r].InJob?
    case Unlocks(r) =>
      Holds(s, r) && s.runners[r].Releasing? && s.sessions[s.runners[r].conn].alive &&
          s.sessions[s.runners[r].conn].count > 0
    case UnlockFindsNotHeld(r) =>
      Holds(s, r) && s.runners[r].Releasing? && s.sessions[s.runners[r].conn].alive &&
          s.sessions[s.runners[r].conn].count == 0
    case UnlockErrors(r, executed) =>
      Holds(s, r) && s.runners[r].Releasing? && (executed ==> s.sessions[s.runners[r].conn].count > 0)
    case Retry(r) => At(s, r, Pausing)
    case Stop(r) => At(s, r, Pausing) || At(s, r, Top)
    case ServerNotices(conn) => conn in s.sessions && s.sessions[conn].place.Discarded?
    case ConnectionLost(conn) => conn in s.sessions
  }

  function Move(s: Cluster, r: int, phase: Runner, conn: int, session: Session): Cluster {
    Cluster(s.sessions[conn := session], s.runners[r := phase])
  }

  function Next(s: Cluster, a: Action): Cluster
    requires Enabled(s, a)
  {
    match a
    case Join(r) => s.(runners := s.runners[r := Top])
    case AcquirePooled(r, conn) => Move(s, r, Connected(conn), conn, s.sessions[conn].(place := Borrowed))
    case AcquireNew(r, conn) => Move(s, r, Connected(conn), conn, Session(r, Borrowed, true, 0))
    case AcquireFails(r) => s.(runners := s.runners[r := Pausing])
    case TryLocks(r) =>
      var conn := s.runners[r].conn;
      Move(s, r, InJob(conn), conn, s.sessions[conn].(count := s.sessions[conn].count + 1))
    case TryFindsBusy(r) =>
      var conn := s.runners[r].conn;
      Move(s, r, Pausing, conn, s.sessions[conn].(place := Pooled))
    case TryErrors(r, discarded, locked) =>
      var conn := s.runners[r].conn;
      var c := s.sessions[conn];
      Move(s, r, Pausing, conn,
        c.(place := if discarded then Discarded else Pooled, count := if locked then c.count + 1 else c.count))
    case JobReturns(r) => s.(runners := s.runners[r := Releasing(s.runners[r].conn)])
    case Unlocks(r) =>
      var conn := s.runners[r].conn;
      Move(s, r, Pausing, conn, s.sessions[conn].(place := Pooled, count := s.sessions[conn].count - 1))
    case UnlockFindsNotHeld(r) =>
      var conn := s.runners[r].conn;
      Move(s, r, Pausing, conn, s.sessions[conn].(place := Discarded))
    case UnlockErrors(r, executed) =>
      var conn := s.runners[r].conn;
      var c := s.sessions[conn];
      Move(s, r, Pausing, conn, c.(place := Discarded, count := if executed then c.count - 1 else c.count))
    case Retry(r) => s.(runners := s.runners[r := Top])
    case Stop(r) => s.(runners := s.runners[r := Stopped])
    case ServerNotices(conn) => s.(sessions := s.sessions[conn := s.sessions[conn].(alive := false, count := 0)])
    case ConnectionLost(conn) => s.(sessions := s.sessions[conn := s.sessions[conn].(alive := false, count := 0)])
  }

  ghost predicate IsRun(states: seq<Cluster>, actions: seq<Action>) {
    && |states| == |actions| + 1 && states[0] == Cluster(map[], map[])
    && forall i | 0 <= i < |actions| :: Enabled(states[i], actions[i]) && states[i + 1] == Next(states[i], actions[i])
  }

  // ---------------------------------------------------------------- the invariant

  /** What the session must look like to its runner. */
  ghost predicate RunnerOk(s: Cluster, r: int)
    requires r in s.runners
  {
    match s.runners[r]
    case Top => true
    case Pausing => true
    case Stopped => true
    case Connected(conn) =>
      conn in s.sessions && s.sessions[conn].replica == r && s.sessions[conn].place.Borrowed? &&
          s.sessions[conn].count == 0
    case InJob(conn) => LeaseOk(s, r, conn)
    case Releasing(conn) => LeaseOk(s, r, conn)
  }

  ghost predicate LeaseOk(s: Cluster, r: int, conn: int) {
    conn in s.sessions && s.sessions[conn].replica == r && s.sessions[conn].place.Borrowed? &&
    (s.sessions[conn].alive ==> s.sessions[conn].count == 1)
  }

  ghost predicate SessionOk(s: Cluster, conn: int)
    requires conn in s.sessions
  {
    var c := s.sessions[conn];
    && c.count <= 1
    && (c.count > 0 ==> c.alive)
    && (c.place.Pooled? ==> c.count == 0)
    && (c.place.Borrowed? ==>
          c.replica in s.runners && Holds(s, c.replica) && s.runners[c.replica].conn == conn &&
          (s.runners[c.replica].Connected? ==> c.count == 0))
  }

  ghost predicate Inv(s: Cluster) {
    && (forall r | r in s.runners :: RunnerOk(s, r))
    && (forall c | c in s.sessions :: SessionOk(s, c))
    && (forall c, d | c in s.sessions && d in s.sessions && s.sessions[c].count > 0 && s.sessions[d].count > 0 ::
          c == d)
  }

  ghost predicate ServerStep(a: Action) {
    a.ServerNotices? || a.ConnectionLost?
  }

  ghost predicate TryStep(a: Action) {
    a.TryLocks? || a.TryFindsBusy? || a.TryErrors?
  }

  ghost predicate UnlockStep(a: Action) {
    a.Unlocks? || a.UnlockFindsNotHeld? || a.UnlockErrors?
  }

  ghost predicate LoopStep(a: Action) {
    !ServerStep(a) && !TryStep(a) && !UnlockStep(a)
  }

  lemma ServerKeepsSession(s: Cluster, a: Action, c: int)
    requires Inv(s) && Enabled(s, a) && ServerStep(a) && c in Next(s, a).sessions
    ensures SessionOk(Next(s, a), c)
  {
  }

  lemma TryKeepsSession(s: Cluster, a: Action, c: int)
    requires Inv(s) && Enabled(s, a) && TryStep(a) && c in Next(s, a).sessions
    ensures SessionOk(Next(s, a), c)
  {
    assert RunnerOk(s, a.r) && SessionOk(s, c);
  }

  lemma UnlockKeepsSession(s: Cluster, a: Action, c: int)
    requires Inv(s) && Enabled(s, a) && UnlockStep(a) && c in Next(s, a).sessions
    ensures SessionOk(Next(s, a), c)
  {
    assert RunnerOk(s, a.r) && SessionOk(s, c);
  }

  lemma LoopKeepsSession(s: Cluster, a: Action, c: int)
    requires Inv(s) && Enabled(s, a) && LoopStep(a) && c in Next(s, a).sessions
    ensures SessionOk(Next(s, a), c)
  {
    assert c in s.sessions ==> SessionOk(s, c);
  }

  lemma StepKeepsSession(s: Cluster, a: Action, c: int)
    requires Inv(s) && Enabled(s, a) && c in Next(s, a).sessions
    ensures SessionOk(Next(s, a), c)
  {
    if ServerStep(a) {
      ServerKeepsSession(s, a, c);
    } else if TryStep(a) {
      TryKeepsSession(s, a, c);
    } else if UnlockStep(a) {
      UnlockKeepsSession(s, a, c);
    } else {
      LoopKeepsSession(s, a, c);
    }
  }

  /** The runner that takes the step. */
  lemma StepKeepsActor(s: Cluster, a: Action)
    requires Inv(s) && Enabled(s, a) && !ServerStep(a)
    ensures RunnerOk(Next(s, a), a.r)
  {
  }

  /** A runner that does not step keeps its place if its connection is left alone. */
  lemma BystanderKept(s: Cluster, s': Cluster, r: int)
    requires r in s.runners && RunnerOk(s, r) && r in s'.runners && s'.runners[r] == s.runners[r]
    requires Holds(s, r) ==>
               s.runners[r].conn in s'.sessions && s'.sessions[s.runners[r].conn] == s.sessions[s.runners[r].conn]
    ensures RunnerOk(s', r)
  {
  }

  /** Nobody else touches the connection that a runner holds. */
  lemma OthersLeaveConnection(s: Cluster, a: Action, r: int)
    requires Inv(s) && Enabled(s, a) && Holds(s, r) && !ServerStep(a) && r != a.r
    ensures var conn := s.runners[r].conn;
            conn in Next(s, a).sessions && Next(s, a).sessions[conn] == s.sessions[conn]
  {
    assert RunnerOk(s, r);
    assert Holds(s, a.r) ==> RunnerOk(s, a.r);
  }

  lemma ServerKeepsRunner(s: Cluster, a: Action, r: int)
    requires Inv(s) && Enabled(s, a) && ServerStep(a) && r in s.runners
    ensures RunnerOk(Next(s, a), r)
  {
    assert RunnerOk(s, r);
  }

  lemma StepKeepsBystander(s: Cluster, a: Action, r: int)
    requires Inv(s) && Enabled(s, a) && r in s.runners && (ServerStep(a) || r != a.r)
    ensures RunnerOk(Next(s, a), r)
  {
    if ServerStep(a) {
      ServerKeepsRunner(s, a, r);
    } else {
      if Holds(s, r) {
        OthersLeaveConnection(s, a, r);
      }
      BystanderKept(s, Next(s, a), r);
    }
  }

  lemma StepKeepsExclusion(s: Cluster, a: Action)
    requires Inv(s) && Enabled(s, a)
    ensures var s' := Next(s, a);
            forall c, d | c in s'.sessions && d in s'.sessions && s'.sessions[c].count > 0 && s'.sessions[d].count > 0
              :: c == d
  {
  }

  lemma StepKeepsInv(s: Cluster, a: Action)
    requires Inv(s) && Enabled(s, a)
    ensures Inv(Next(s, a))
  {
    var s' := Next(s, a);
    forall r | r in s'.runners ensures RunnerOk(s', r) {
      if !ServerStep(a) && r == a.r {
        StepKeepsActor(s, a);
      } else {
        StepKeepsBystander(s, a, r);
      }
    }
    forall c | c in s'.sessions ensures SessionOk(s', c) {
      StepKeepsSession(s, a, c);
    }
    StepKeepsExclusion(s, a);
  }

  lemma {:induction false} RunKeepsInv(states: seq<Cluster>, actions: seq<Action>, k: nat)
    requires IsRun(states, actions) && k <= |actions|
    ensures Inv(states[k])
  {
    if k > 0 {
      RunKeepsInv(states, actions, k - 1);
      StepKeepsInv(states[k - 1], actions[k - 1]);
    }
  }

  // ---------------------------------------------------------------- the results

  predicate Leads(s: Cluster, r: int) {
    r in s.runners && s.runners[r].InJob?
  }

  predicate LeaseIntact(s: Cluster, r: int) {
    Holds(s, r) && s.sessions[s.runners[r].conn].alive
  }

  /** Two replicas are inside the job only if one of them has lost the connection of its lease. */
  lemma AtMostOneLeader(states: seq<Cluster>, actions: seq<Action>, k: nat, r: int, q: int)
    requires IsRun(states, actions) && k <= |actions|
    requires Leads(states[k], r) && Leads(states[k], q) && r != q
    ensures !LeaseIntact(states[k], r) || !LeaseIntact(states[k], q)
  {
    RunKeepsInv(states, actions, k);
    var s := states[k];
    assert RunnerOk(s, r) && RunnerOk(s, q);
  }

  /**
  The lock is held once at most and never by an idle pooled connection. While a runner is not in its
  job or releasing it, no connection that its replica still has holds the lock.
  */
  lemma LockNeverHides(states: seq<Cluster>, actions: seq<Action>, k: nat, conn: int)
    requires IsRun(states, actions) && k <= |actions|
    requires conn in states[k].sessions && states[k].sessions[conn].count > 0
    ensures var s := states[k];
            var c := s.sessions[conn];
            && c.count == 1
            && (forall d | d in s.sessions && d != conn :: s.sessions[d].count == 0)
            && !c.place.Pooled?
            && (c.place.Discarded? ||
                (c.replica in s.runners &&
                    (s.runners[c.replica] == InJob(conn) || s.runners[c.replica] == Releasing(conn))))
  {
    RunKeepsInv(states, actions, k);
    assert SessionOk(states[k], conn);
  }

  /** With no lease out and every discarded connection noticed by the server, any replica can lead. */
  lemma LockCanBeTakenAgain(states: seq<Cluster>, actions: seq<Action>, k: nat, r: int)
    requires IsRun(states, actions) && k <= |actions|
    requires forall q | q in states[k].runners :: !states[k].runners[q].InJob? && !states[k].runners[q].Releasing?
    requires forall c | c in states[k].sessions && states[k].sessions[c].place.Discarded? ::
               !states[k].sessions[c].alive
    requires r in states[k].runners && states[k].runners[r].Connected? && LeaseIntact(states[k], r)
    ensures Enabled(states[k], TryLocks(r)) && Leads(Next(states[k], TryLocks(r)), r)
  {
    RunKeepsInv(states, actions, k);
    var s := states[k];
    forall c | c in s.sessions ensures s.sessions[c].count == 0 {
      assert SessionOk(s, c);
    }
  }

  /** The lock is free for this replica: no session of another holds it. */
  ghost predicate FreeFor(s: Cluster, conn: int) {
    forall c | c in s.sessions && c != conn :: s.sessions[c].count == 0
  }

  /**
  From every reachable state, a paused runner tries again: it goes back to the top, takes a new connection, and
  is inside the job if no session holds the lock, or pausing again if one does.
  */
  lemma PausedRunnerTriesAgain(states: seq<Cluster>, actions: seq<Action>, k: nat, r: int, conn: int)
    requires IsRun(states, actions) && k <= |actions| && At(states[k], r, Pausing) && conn !in states[k].sessions
    ensures Enabled(states[k], Retry(r))
    ensures var s1 := Next(states[k], Retry(r));
            && Enabled(s1, AcquireNew(r, conn))
            && (var s2 := Next(s1, AcquireNew(r, conn));
                if FreeFor(states[k], conn) then Enabled(s2, TryLocks(r)) && Leads(Next(s2, TryLocks(r)), r)
                else Enabled(s2, TryFindsBusy(r)) && At(Next(s2, TryFindsBusy(r)), r, Pausing))
  {
    var s := states[k];
    var s2 := Next(Next(s, Retry(r)), AcquireNew(r, conn));
    if FreeFor(s, conn) {
      assert !HeldByOther(s2, conn);
    } else {
      var c :| c in s.sessions && c != conn && s.sessions[c].count != 0;
      assert c in s2.sessions && s2.sessions[c].count > 0;
    }
  }

  /** So does a replica that joins. */
  lemma JoinedRunnerTries(states: seq<Cluster>, actions: seq<Action>, k: nat, r: int, conn: int)
    requires IsRun(states, actions) && k <= |actions| && r !in states[k].runners && conn !in states[k].sessions
    requires FreeFor(states[k], conn)
    ensures Enabled(states[k], Join(r))
    ensures var s1 := Next(states[k], Join(r));
            && Enabled(s1, AcquireNew(r, conn))
            && (var s2 := Next(s1, AcquireNew(r, conn)); Enabled(s2, TryLocks(r)) && Leads(Next(s2, TryLocks(r)), r))
  {
    var s2 := Next(Next(states[k], Join(r)), AcquireNew(r, conn));
    assert !HeldByOther(s2, conn);
  }

  /** Whatever fails in a round, the runner pauses, from where it tries again. */
  lemma FailuresEndInPause(states: seq<Cluster>, actions: seq<Action>, k: nat, r: int, discarded: bool)
    requires IsRun(states, actions) && k <= |actions| && r in states[k].runners
    ensures var s := states[k];
            match s.runners[r]
            case Top => Enabled(s, AcquireFails(r)) && At(Next(s, AcquireFails(r)), r, Pausing)
            case Connected(_) =>
              Enabled(s, TryErrors(r, discarded, false)) && At(Next(s, TryErrors(r, discarded, false)), r, Pausing)
            case InJob(conn) => Enabled(s, JobReturns(r)) && At(Next(s, JobReturns(r)), r, Releasing(conn))
            case Releasing(conn) =>
              && Enabled(s, UnlockErrors(r, false)) && At(Next(s, UnlockErrors(r, false)), r, Pausing)
              && Next(s, UnlockErrors(r, false)).sessions[conn].place.Discarded?
            case Pausing => Enabled(s, Retry(r)) && At(Next(s, Retry(r)), r, Top)
            case Stopped => true
  {
    RunKeepsInv(states, actions, k);
    assert RunnerOk(states[k], r);
  }

  /** A pooled connection can be taken and used again: the leader can lead again on the same one. */
  lemma LeaderCanLeadAgain(states: seq<Cluster>, actions: seq<Action>, k: nat, r: int, conn: int)
    requires IsRun(states, actions) && k <= |actions| && At(states[k], r, Top) && FreeFor(states[k], conn)
    requires conn in states[k].sessions && states[k].sessions[conn].replica == r && states[k].sessions[conn].alive
    requires states[k].sessions[conn].place.Pooled?
    ensures Enabled(states[k], AcquirePooled(r, conn))
    ensures var s1 := Next(states[k], AcquirePooled(r, conn));
            Enabled(s1, TryLocks(r)) && At(Next(s1, TryLocks(r)), r, InJob(conn))
  {
    assert !HeldByOther(Next(states[k], AcquirePooled(r, conn)), conn);
  }

  /**
  A lock that a failed try took, or a failed unlock kept, stays on the discarded connection: nobody gets it until
  the server notices that the connection is gone, and then everybody can.
  */
  lemma LockStaysUntilNoticed(states: seq<Cluster>, actions: seq<Action>, k: nat, r: int, q: int)
    requires IsRun(states, actions) && k <= |actions| && r != q
    requires q in states[k].runners && states[k].runners[q].Connected? && LeaseIntact(states[k], q)
    requires r in states[k].runners && LeaseIntact(states[k], r)
    requires (states[k].runners[r].Connected? && FreeFor(states[k], states[k].runners[r].conn)) ||
             states[k].runners[r].Releasing?
    ensures var s := states[k];
            var conn := s.runners[r].conn;
            var a := if s.runners[r].Connected? then TryErrors(r, true, true) else UnlockErrors(r, false);
            && Enabled(s, a)
            && (var s1 := Next(s, a);
            && !Enabled(s1, TryLocks(q)) && Enabled(s1, TryFindsBusy(q)) && Enabled(s1, ServerNotices(conn))
            && (var s2 := Next(s1, ServerNotices(conn));
                !s2.sessions[conn].alive && Enabled(s2, TryLocks(q)) && Leads(Next(s2, TryLocks(q)), q)))
  {
    RunKeepsInv(states, actions, k);
    var s := states[k];
    var conn := s.runners[r].conn;
    assert RunnerOk(s, r) && RunnerOk(s, q) && SessionOk(s, conn);
    var a := if s.runners[r].Connected? then TryErrors(r, true, true) else UnlockErrors(r, false);
    assert Enabled(s, a) by {
      assert s.runners[r].Connected? ==> !HeldByOther(s, conn);
    }
    var s1 := Next(s, a);
    assert s1.sessions[conn].count == 1;
    var s2 := Next(s1, ServerNotices(conn));
    assert !HeldByOther(s2, s2.runners[q].conn);
  }

  /** An unlock that was executed and whose answer was lost frees the lock at once. */
  lemma LostAnswerFreesLock(states: seq<Cluster>, actions: seq<Action>, k: nat, r: int)
    requires IsRun(states, actions) && k <= |actions|
    requires r in states[k].runners && states[k].runners[r].Releasing? && LeaseIntact(states[k], r)
    ensures Enabled(states[k], UnlockErrors(r, true))
    ensures var s1 := Next(states[k], UnlockErrors(r, true));
            forall c | c in s1.sessions :: s1.sessions[c].count == 0
  {
    RunKeepsInv(states, actions, k);
    assert RunnerOk(states[k], r);
  }

  /**
  An unlock never finds the lock not held: it either gives the lock back or fails with its connection. So the
  branch of the program that reports a lock not held is not reached by any run.
  */
  lemma UnlockFindsLock(states: seq<Cluster>, actions: seq<Action>, k: nat, r: int)
    requires IsRun(states, actions) && k <= |actions| && r in states[k].runners && states[k].runners[r].Releasing?
    ensures !Enabled(states[k], UnlockFindsNotHeld(r))
    ensures !LeaseIntact(states[k], r) ==> !Enabled(states[k], Unlocks(r))
  {
    RunKeepsInv(states, actions, k);
    assert RunnerOk(states[k], r);
  }

  /** A runner can be stopped at the top of its loop and while it pauses, and then never leads again. */
  lemma {:induction false} StoppedForGood(states: seq<Cluster>, actions: seq<Action>, i: nat, k: nat, r: int)
    requires IsRun(states, actions) && i < k <= |actions| && actions[i] == Stop(r)
    ensures At(states[k], r, Stopped)
    decreases k
  {
    if k == i + 1 {
      assert Enabled(states[i], actions[i]) && states[k] == Next(states[i], actions[i]);
    } else {
      StoppedForGood(states, actions, i, k - 1, r);
      assert Enabled(states[k - 1], actions[k - 1]) && states[k] == Next(states[k - 1], actions[k - 1]);
    }
  }

  lemma CanStop(s: Cluster, r: int)
    requires At(s, r, Top) || At(s, r, Pausing)
    ensures Enabled(s, Stop(r)) && !Leads(Next(s, Stop(r)), r)
  {
  }

  /** The whole round of a leader: the job returns, the lock is given back, and the runner pauses with no lock held. */
  lemma LeaderGivesLockBack(states: seq<Cluster>, actions: seq<Action>, k: nat, r: int)
    requires IsRun(states, actions) && k <= |actions| && Leads(states[k], r) && LeaseIntact(states[k], r)
    ensures Enabled(states[k], JobReturns(r))
    ensures var s1 := Next(states[k], JobReturns(r));
            && Enabled(s1, Unlocks(r))
            && (var s2 := Next(s1, Unlocks(r));
                && At(s2, r, Pausing) && (forall c | c in s2.sessions :: s2.sessions[c].count == 0)
                && states[k].runners[r].conn in s2.sessions && s2.sessions[states[k].runners[r].conn].place.Pooled?)
  {
    RunKeepsInv(states, actions, k);
    var s := states[k];
    assert RunnerOk(s, r);
  }

  /** Losing the connection of a lease is enough: from any such state a second replica can join the job. */
  lemma LostLeaseAdmitsSecondLeader(states: seq<Cluster>, actions: seq<Action>, k: nat, r: int, q: int)
    requires IsRun(states, actions) && k <= |actions|
    requires Leads(states[k], r) && LeaseIntact(states[k], r)
    requires q in states[k].runners && states[k].runners[q].Connected? && LeaseIntact(states[k], q)
    ensures var s := states[k];
            var lost := ConnectionLost(s.runners[r].conn);
            && Enabled(s, lost) && Enabled(Next(s, lost), TryLocks(q))
            && Leads(Next(Next(s, lost), TryLocks(q)), r) && Leads(Next(Next(s, lost), TryLocks(q)), q)
  {
    RunKeepsInv(states, actions, k);
    var s := states[k];
    var held := s.runners[r].conn;
    assert RunnerOk(s, r) && RunnerOk(s, q);
    assert forall c | c in s.sessions && s.sessions[c].count > 0 :: c == held;
    assert !HeldByOther(Next(s, ConnectionLost(held)), s.runners[q].conn);
  }
}
