/**
The buffered usage plugin (internal/usage/buffered_plugin.go): any number of producers offer events
under a read lock to a bounded queue, one worker collects batches and hands them to the writer, a
ticker forces flushes, and any number of Close calls may arrive at any time.

A state holds the shared variables and the program counter of every participant; an action is one
step of one participant between two points where others can run. A send on a closed channel and a
second close of a channel are not assumed away: they set `panicked`.
*/
module UsageBuffer {
  const USAGE_QUEUE_CAPACITY := 1024
  const USAGE_BATCH_SIZE := 100

  /** A HandleUsage call whose event is decoded. */
  datatype Producer<E> =
    | Arrived(event: E)
    | ReadLocked(event: E)
    | Sending(event: E)
    | Leaving
    | Finished

  /** A Close call. From HasLock to QueueClosed it holds the write lock. */
  datatype Closer = Entering | InOnce | HasLock | Marked | QueueClosed | Waiting | Returned(flushed: bool)

  datatype Once = NotStarted | Running | Complete

  datatype Worker = Selecting | Flushing(exit: bool) | Exited | Gone

  /** accepted and flushed record what was sent to the queue and handed to the writer, in order. */
  datatype State<!E> = State(
    hasWriter: bool, queue: seq<E>, queueClosed: bool, closed: bool, done: bool, panicked: bool, once: Once,
    producers: map<int, Producer<E>>, closers: map<int, Closer>, worker: Worker, batch: seq<E>,
    accepted: seq<E>, flushed: seq<seq<E>>)

  datatype Action<E> =
    | Offer(id: int, event: E)
    | RLock(id: int)
    | CheckClosed(id: int)
    | Send(id: int)
    | RUnlock(id: int)
    | CallClose(id: int)
    | EnterOnce(id: int)
    | Lock(id: int)
    | MarkClosed(id: int)
    | CloseQueue(id: int)
    | Unlock(id: int)
    | Return(id: int, cancelled: bool)
    | Receive
    | ReceiveClosed
    | Tick
    | Flush
    | CloseDone

  function Start<E>(hasWriter: bool): State<E> {
    State(hasWriter, [], false, false, !hasWriter, false, NotStarted, map[], map[],
          if hasWriter then Selecting else Gone, [], [], [])
  }

  predicate Reading<E>(p: Producer<E>) {
    p.ReadLocked? || p.Sending? || p.Leaving?
  }

  predicate Writing(c: Closer) {
    c.HasLock? || c.Marked? || c.QueueClosed?
  }

  predicate InsideOnce(c: Closer) {
    c.InOnce? || Writing(c)
  }

  ghost predicate NoReader<E>(s: State<E>) {
    forall i | i in s.producers :: !Reading(s.producers[i])
  }

  ghost predicate NoWriter<E>(s: State<E>) {
    forall i | i in s.closers :: !Writing(s.closers[i])
  }

  ghost predicate Enabled<E>(s: State<E>, a: Action<E>) {
    !s.panicked &&
    match a
    case Offer(i, _) => s.hasWriter && i !in s.producers
    case RLock(i) => i in s.producers && s.producers[i].Arrived? && NoWriter(s)
    case CheckClosed(i) => i in s.producers && s.producers[i].ReadLocked?
    case Send(i) => i in s.producers && s.producers[i].Sending?
    case RUnlock(i) => i in s.producers && s.producers[i].Leaving?
    case CallClose(i) => i !in s.closers
    case EnterOnce(i) => i in s.closers && s.closers[i].Entering? && !s.once.Running?
    case Lock(i) => i in s.closers && s.closers[i].InOnce? && NoReader(s) && NoWriter(s)
    case MarkClosed(i) => i in s.closers && s.closers[i].HasLock?
    case CloseQueue(i) => i in s.closers && s.closers[i].Marked?
    case Unlock(i) => i in s.closers && s.closers[i].QueueClosed?
    case Return(i, cancelled) => i in s.closers && s.closers[i].Waiting? && (s.done || cancelled)
    case Receive => s.worker.Selecting? && s.queue != []
    case ReceiveClosed => s.worker.Selecting? && s.queue == [] && s.queueClosed
    case Tick => s.worker.Selecting?
    case Flush => s.worker.Flushing?
    case CloseDone => s.worker.Exited?
  }

  function WithProducer<E>(s: State<E>, i: int, p: Producer<E>): State<E> {
    s.(producers := s.producers[i := p])
  }

  function WithCloser<E>(s: State<E>, i: int, c: Closer): State<E> {
    s.(closers := s.closers[i := c])
  }

  /** A flush hands over a batch that is not empty. */
  function Flushed<E>(flushed: seq<seq<E>>, batch: seq<E>): seq<seq<E>> {
    if |batch| == 0 then flushed else flushed + [batch]
  }

  ghost function Next<E>(s: State<E>, a: Action<E>): State<E>
    requires Enabled(s, a)
  {
    match a
    case Offer(i, event) => WithProducer(s, i, Arrived(event))
    case RLock(i) => WithProducer(s, i, ReadLocked(s.producers[i].event))
    case CheckClosed(i) => WithProducer(s, i, if s.closed then Leaving else Sending(s.producers[i].event))
    case Send(i) =>
      if s.queueClosed then s.(panicked := true)
      else if |s.queue| < USAGE_QUEUE_CAPACITY then
        var event := s.producers[i].event;
        WithProducer(s, i, Leaving).(queue := s.queue + [event], accepted := s.accepted + [event])
      else WithProducer(s, i, Leaving)
    case RUnlock(i) => WithProducer(s, i, Finished)
    case CallClose(i) => WithCloser(s, i, Entering)
    case EnterOnce(i) =>
      if s.once.NotStarted? then WithCloser(s, i, InOnce).(once := Running) else WithCloser(s, i, Waiting)
    case Lock(i) => WithCloser(s, i, HasLock)
    case MarkClosed(i) => WithCloser(s, i, Marked).(closed := true)
    case CloseQueue(i) =>
      if s.queueClosed then s.(panicked := true) else WithCloser(s, i, QueueClosed).(queueClosed := true)
    case Unlock(i) => WithCloser(s, i, Waiting).(once := Complete)
    case Return(i, cancelled) => WithCloser(s, i, Returned(!cancelled))
    case Receive =>
      var batch := s.batch + [s.queue[0]];
      s.(queue := s.queue[1..], batch := batch,
         worker := if |batch| == USAGE_BATCH_SIZE then Flushing(false) else Selecting)
    case ReceiveClosed => s.(worker := Flushing(true))
    case Tick => s.(worker := Flushing(false))
    case Flush =>
      s.(flushed := Flushed(s.flushed, s.batch), batch := [],
         worker := if s.worker.exit then Exited else Selecting)
    case CloseDone => if s.done then s.(panicked := true) else s.(done := true, worker := Gone)
  }

  ghost predicate Initial<E>(s: State<E>) {
    s == Start(true) || s == Start(false)
  }

  /** The actions lead from s to s'. */
  ghost predicate Runs<E>(s: State<E>, actions: seq<Action<E>>, s': State<E>)
    decreases |actions|
  {
    if actions == [] then s' == s else Enabled(s, actions[0]) && Runs(Next(s, actions[0]), actions[1..], s')
  }

  function Flatten<E>(batches: seq<seq<E>>): seq<E> {
    if batches == [] then [] else Flatten(batches[..|batches| - 1]) + batches[|batches| - 1]
  }

  // ---------------------------------------------------------------- the invariant

  ghost predicate LockInv<E>(s: State<E>) {
    && (forall i | i in s.closers && Writing(s.closers[i]) :: NoReader(s))
    && (forall i, j | i in s.closers && j in s.closers && InsideOnce(s.closers[i]) && InsideOnce(s.closers[j]) ::
          i == j)
    && (forall i | i in s.producers && s.producers[i].Sending? :: !s.closed)
  }

  /** What each position of a Close call knows about the flags. */
  ghost predicate CloserOk<E>(s: State<E>, c: Closer) {
    && (InsideOnce(c) ==> s.once.Running?)
    && match c
       case Entering => true
       case InOnce => !s.closed
       case HasLock => !s.closed
       case Marked => s.closed && !s.queueClosed
       case QueueClosed => s.queueClosed
       case Waiting => s.queueClosed
       case Returned(flushed) => s.queueClosed && (flushed ==> s.done)
  }

  ghost predicate CloseInv<E>(s: State<E>) {
    && (s.queueClosed ==> s.closed)
    && (s.once.NotStarted? ==> !s.closed)
    && (s.once.Complete? ==> s.queueClosed)
    && (forall i | i in s.closers :: CloserOk(s, s.closers[i]))
  }

  ghost predicate WorkerInv<E>(s: State<E>) {
    && s.accepted == Flatten(s.flushed) + s.batch + s.queue
    && |s.queue| <= USAGE_QUEUE_CAPACITY
    && |s.batch| <= USAGE_BATCH_SIZE
    && (s.worker.Selecting? ==> |s.batch| < USAGE_BATCH_SIZE)
    && (forall b | b in s.flushed :: 1 <= |b| <= USAGE_BATCH_SIZE)
    && ((s.worker.Flushing? && s.worker.exit) || s.worker.Exited? || s.worker.Gone? ==>
          s.queue == [] && (s.hasWriter ==> s.queueClosed))
    && (s.worker.Exited? || s.worker.Gone? ==> s.batch == [])
    && (s.done <==> s.worker.Gone?)
    && (!s.hasWriter ==> s.producers == map[])
  }

  ghost predicate Inv<E>(s: State<E>) {
    !s.panicked && LockInv(s) && CloseInv(s) && WorkerInv(s)
  }

  lemma ProducerKeepsInv<E>(s: State<E>, a: Action<E>)
    requires Inv(s) && Enabled(s, a) && (a.Offer? || a.RLock? || a.CheckClosed? || a.Send? || a.RUnlock?)
    ensures Inv(Next(s, a))
  {
    if a.Send? && |s.queue| < USAGE_QUEUE_CAPACITY {
      var event := s.producers[a.id].event;
      assert Flatten(s.flushed) + s.batch + (s.queue + [event]) == Flatten(s.flushed) + s.batch + s.queue + [event];
    }
  }

  ghost predicate CloserStep<E>(a: Action<E>) {
    a.CallClose? || a.EnterOnce? || a.Lock? || a.MarkClosed? || a.CloseQueue? || a.Unlock? || a.Return?
  }

  lemma CloserKeepsReadersOut<E>(s: State<E>, a: Action<E>, i: int)
    requires Inv(s) && Enabled(s, a) && CloserStep(a) && i in Next(s, a).closers && Writing(Next(s, a).closers[i])
    ensures NoReader(Next(s, a))
  {
  }

  lemma CloserKeepsOnce<E>(s: State<E>, a: Action<E>, i: int, j: int)
    requires Inv(s) && Enabled(s, a) && CloserStep(a) && i in Next(s, a).closers && j in Next(s, a).closers
    requires InsideOnce(Next(s, a).closers[i]) && InsideOnce(Next(s, a).closers[j])
    ensures i == j
  {
  }

  lemma CloserKeepsLockInv<E>(s: State<E>, a: Action<E>)
    requires Inv(s) && Enabled(s, a) && CloserStep(a)
    ensures LockInv(Next(s, a))
  {
    var s' := Next(s, a);
    forall i | i in s'.closers && Writing(s'.closers[i]) ensures NoReader(s') {
      CloserKeepsReadersOut(s, a, i);
    }
    forall i, j | i in s'.closers && j in s'.closers && InsideOnce(s'.closers[i]) && InsideOnce(s'.closers[j])
      ensures i == j
    {
      CloserKeepsOnce(s, a, i, j);
    }
  }

  lemma CloserKeepsCloser<E>(s: State<E>, a: Action<E>, i: int)
    requires Inv(s) && Enabled(s, a) && CloserStep(a) && i in Next(s, a).closers
    ensures CloserOk(Next(s, a), Next(s, a).closers[i])
  {
  }

  lemma CloserKeepsCloseInv<E>(s: State<E>, a: Action<E>)
    requires Inv(s) && Enabled(s, a) && CloserStep(a)
    ensures !Next(s, a).panicked && CloseInv(Next(s, a)) && WorkerInv(Next(s, a))
  {
    var s' := Next(s, a);
    forall i | i in s'.closers ensures CloserOk(s', s'.closers[i]) {
      CloserKeepsCloser(s, a, i);
    }
    if a.id in s.closers {
      assert CloserOk(s, s.closers[a.id]);
    }
  }

  /** A step of the worker touches no lock, no flag and no channel that Close looks at before done. */
  lemma WorkerLeavesLocksAlone<E>(s: State<E>, s': State<E>)
    requires LockInv(s) && CloseInv(s) && (s.done ==> s'.done)
    requires s'.producers == s.producers && s'.closers == s.closers && s'.once == s.once
    requires s'.closed == s.closed && s'.queueClosed == s.queueClosed
    ensures LockInv(s') && CloseInv(s')
  {
  }

  lemma ReceiveKeepsWorkerInv<E>(s: State<E>)
    requires WorkerInv(s) && Enabled(s, Receive)
    ensures WorkerInv(Next(s, Receive))
  {
  }

  lemma FlushKeepsWorkerInv<E>(s: State<E>)
    requires WorkerInv(s) && Enabled(s, Flush)
    ensures WorkerInv(Next(s, Flush))
  {
  }

  lemma WorkerKeepsInv<E>(s: State<E>, a: Action<E>)
    requires Inv(s) && Enabled(s, a) && (a.Receive? || a.Flush? || a.ReceiveClosed? || a.Tick? || a.CloseDone?)
    ensures Inv(Next(s, a))
  {
    WorkerLeavesLocksAlone(s, Next(s, a));
    if a.Receive? {
      ReceiveKeepsWorkerInv(s);
    } else if a.Flush? {
      FlushKeepsWorkerInv(s);
    }
  }

  lemma StepKeepsInv<E>(s: State<E>, a: Action<E>)
    requires Inv(s) && Enabled(s, a)
    ensures Inv(Next(s, a))
  {
    if a.Offer? || a.RLock? || a.CheckClosed? || a.Send? || a.RUnlock? {
      ProducerKeepsInv(s, a);
    } else if a.Receive? || a.Flush? || a.ReceiveClosed? || a.Tick? || a.CloseDone? {
      WorkerKeepsInv(s, a);
    } else {
      CloserKeepsLockInv(s, a);
      CloserKeepsCloseInv(s, a);
    }
  }

  lemma {:induction false} RunKeepsInv<E>(s: State<E>, actions: seq<Action<E>>, s': State<E>)
    requires Inv(s) && Runs(s, actions, s')
    ensures Inv(s')
    decreases |actions|
  {
    if actions != [] {
      StepKeepsInv(s, actions[0]);
      RunKeepsInv(Next(s, actions[0]), actions[1..], s');
    }
  }

  // ---------------------------------------------------------------- the results

  /** In every interleaving: nothing is lost, duplicated or reordered between queue and writer. */
  lemma Conservation<E>(s0: State<E>, actions: seq<Action<E>>, s: State<E>)
    requires Initial(s0) && Runs(s0, actions, s)
    ensures s.accepted == Flatten(s.flushed) + s.batch + s.queue
    ensures s.done ==> s.accepted == Flatten(s.flushed)
  {
    RunKeepsInv(s0, actions, s);
    if s.done {
      assert Flatten(s.flushed) + [] + [] == Flatten(s.flushed);
    }
  }

  /** Nothing that is about to happen would send on a closed queue or close a channel twice. */
  lemma NoPanicAhead<E>(s: State<E>, i: int)
    requires Inv(s)
    ensures Enabled(s, Send(i)) || Enabled(s, CloseQueue(i)) ==> !s.queueClosed
    ensures Enabled(s, CloseDone) ==> !s.done
  {
    if Enabled(s, CloseQueue(i)) {
      assert CloserOk(s, s.closers[i]);
    }
  }

  /** In every interleaving: no send on a closed queue, one close at most, and the bounds hold. */
  lemma CloseSafety<E>(s0: State<E>, actions: seq<Action<E>>, s: State<E>, i: int)
    requires Initial(s0) && Runs(s0, actions, s)
    ensures !s.panicked
    ensures Enabled(s, Send(i)) || Enabled(s, CloseQueue(i)) ==> !s.queueClosed
    ensures Enabled(s, CloseDone) ==> !s.done
    ensures |s.queue| <= 1024
    ensures forall b | b in s.flushed :: 1 <= |b| <= 100
  {
    ReachableInv(s0, actions, s);
    NoPanicAhead(s, i);
  }

  lemma DoneStepChangesNothing<E>(s: State<E>, a: Action<E>)
    requires Inv(s) && Enabled(s, a) && s.done && s.queueClosed
    ensures var s' := Next(s, a);
            s'.done && s'.queueClosed && s'.accepted == s.accepted && s'.flushed == s.flushed
  {
  }

  lemma {:induction false} DoneForGood<E>(s: State<E>, actions: seq<Action<E>>, s': State<E>)
    requires Inv(s) && s.done && s.queueClosed && Runs(s, actions, s')
    ensures s'.done && s'.queueClosed && s'.accepted == s.accepted && s'.flushed == s.flushed
    decreases |actions|
  {
    if actions != [] {
      StepKeepsInv(s, actions[0]);
      DoneStepChangesNothing(s, actions[0]);
      DoneForGood(Next(s, actions[0]), actions[1..], s');
    }
  }

  /** A Close that returned without error: every event ever accepted is with the writer, for good. */
  lemma ClosedMeansFlushed<E>(s0: State<E>, before: seq<Action<E>>, s: State<E>, after: seq<Action<E>>, s': State<E>,
                              id: int)
    requires Initial(s0) && Runs(s0, before, s) && Runs(s, after, s')
    requires id in s.closers && s.closers[id] == Returned(true)
    ensures s'.done && s'.queueClosed
    ensures s'.accepted == s.accepted == Flatten(s.flushed) && s'.flushed == s.flushed
  {
    RunKeepsInv(s0, before, s);
    Conservation(s0, before, s);
    DoneForGood(s, after, s');
  }

  // ---------------------------------------------------------------- which events are accepted

  lemma {:induction false} RunsConcat<E>(s: State<E>, a: seq<Action<E>>, s1: State<E>, b: seq<Action<E>>, s2: State<E>)
    requires Runs(s, a, s1) && Runs(s1, b, s2)
    ensures Runs(s, a + b, s2)
    decreases |a|
  {
    if a == [] {
      assert a + b == b;
    } else {
      RunsConcat(Next(s, a[0]), a[1..], s1, b, s2);
      assert (a + b)[1..] == a[1..] + b;
    }
  }

  lemma RunsOn<E>(s: State<E>, actions: seq<Action<E>>, s1: State<E>, a: Action<E>)
    requires Runs(s, actions, s1) && Enabled(s1, a)
    ensures Runs(s, actions + [a], Next(s1, a))
  {
    assert Runs(Next(s1, a), [], Next(s1, a));
    RunsConcat(s, actions, s1, [a], Next(s1, a));
  }

  /** The state before the last action of a run. */
  lemma {:induction false} BeforeLast<E>(s: State<E>, actions: seq<Action<E>>, s': State<E>) returns (s1: State<E>)
    requires Runs(s, actions, s') && actions != []
    ensures Runs(s, actions[..|actions| - 1], s1)
    ensures Enabled(s1, actions[|actions| - 1]) && s' == Next(s1, actions[|actions| - 1])
    decreases |actions|
  {
    if |actions| == 1 {
      s1 := s;
      assert actions[1..] == [];
    } else {
      var rest := actions[1..];
      s1 := BeforeLast(Next(s, actions[0]), rest, s');
      assert rest[..|rest| - 1] == actions[..|actions| - 1][1..];
      assert rest[|rest| - 1] == actions[|actions| - 1];
    }
  }

  /** At its n-th action the call found the plugin closed, or the queue full. */
  ghost predicate TurnedAwayAt<E>(s0: State<E>, actions: seq<Action<E>>, id: int, n: nat, s: State<E>) {
    n < |actions| && Runs(s0, actions[..n], s) &&
    ((actions[n] == CheckClosed(id) && s.closed) || (actions[n] == Send(id) && |s.queue| >= USAGE_QUEUE_CAPACITY))
  }

  ghost predicate TurnedAway<E(!new)>(s0: State<E>, actions: seq<Action<E>>, id: int) {
    exists n: nat, s :: TurnedAwayAt(s0, actions, id, n, s)
  }

  lemma TurnedAwayStays<E(!new)>(s0: State<E>, actions: seq<Action<E>>, id: int)
    requires actions != [] && TurnedAway(s0, actions[..|actions| - 1], id)
    ensures TurnedAway(s0, actions, id)
  {
    var before := actions[..|actions| - 1];
    var n: nat, s :| TurnedAwayAt(s0, before, id, n, s);
    assert before[..n] == actions[..n];
    assert TurnedAwayAt(s0, actions, id, n, s);
  }

  /** What has become of an offered event: still on its way, in the accepted events, or turned away. */
  ghost predicate Traced<E(!new)>(s0: State<E>, actions: seq<Action<E>>, s: State<E>, id: int, event: E) {
    id in s.producers &&
    match s.producers[id]
    case Arrived(e) => e == event
    case ReadLocked(e) => e == event
    case Sending(e) => e == event
    case Leaving => event in s.accepted || TurnedAway(s0, actions, id)
    case Finished => event in s.accepted || TurnedAway(s0, actions, id)
  }

  ghost predicate IsBy<E>(a: Action<E>, id: int) {
    a == RLock(id) || a == CheckClosed(id) || a == Send(id) || a == RUnlock(id)
  }

  ghost predicate ProducerStep<E>(a: Action<E>) {
    a.Offer? || a.RLock? || a.CheckClosed? || a.Send? || a.RUnlock?
  }

  lemma CloserLeavesProducers<E>(s: State<E>, a: Action<E>)
    requires Enabled(s, a) && CloserStep(a)
    ensures Next(s, a).producers == s.producers && Next(s, a).accepted == s.accepted
  {
    match a
    case CallClose(_) =>
    case EnterOnce(_) =>
    case Lock(_) =>
    case MarkClosed(_) =>
    case CloseQueue(_) =>
    case Unlock(_) =>
    case Return(_, _) =>
  }

  lemma WorkerLeavesProducers<E>(s: State<E>, a: Action<E>)
    requires Enabled(s, a) && !CloserStep(a) && !ProducerStep(a)
    ensures Next(s, a).producers == s.producers && Next(s, a).accepted == s.accepted
  {
  }

  lemma ProducersLeaveEachOther<E>(s: State<E>, a: Action<E>, id: int)
    requires Enabled(s, a) && ProducerStep(a) && !IsBy(a, id) && id in s.producers
    ensures id in Next(s, a).producers && Next(s, a).producers[id] == s.producers[id]
  {
  }

  lemma OthersLeaveProducer<E>(s: State<E>, a: Action<E>, id: int)
    requires Enabled(s, a) && !IsBy(a, id) && id in s.producers
    ensures id in Next(s, a).producers && Next(s, a).producers[id] == s.producers[id]
  {
    if CloserStep(a) {
      CloserLeavesProducers(s, a);
    } else if ProducerStep(a) {
      ProducersLeaveEachOther(s, a, id);
    } else {
      WorkerLeavesProducers(s, a);
    }
  }

  lemma AcceptedGrows<E>(s: State<E>, a: Action<E>)
    requires Enabled(s, a)
    ensures s.accepted <= Next(s, a).accepted
  {
    if CloserStep(a) {
      CloserLeavesProducers(s, a);
    } else if !ProducerStep(a) {
      WorkerLeavesProducers(s, a);
    }
  }

  /** The producer's own step: with its event on, or out by the closed flag, by a full queue or by acceptance. */
  lemma OwnStep<E>(s: State<E>, a: Action<E>, id: int)
    requires Inv(s) && Enabled(s, a) && IsBy(a, id)
    ensures id in s.producers && id in Next(s, a).producers
    ensures var before, after := s.producers[id], Next(s, a).producers[id];
            match a
            case RLock(_) => before.Arrived? && after == ReadLocked(before.event)
            case CheckClosed(_) =>
              before.ReadLocked? && after == if s.closed then Leaving else Sending(before.event)
            case Send(_) =>
              && before.Sending? && after.Leaving?
              && (|s.queue| >= USAGE_QUEUE_CAPACITY || before.event in Next(s, a).accepted)
            case _ => before.Leaving? && after.Finished?
  {
    if a.Send? {
      assert !s.queueClosed;
      if |s.queue| < USAGE_QUEUE_CAPACITY {
        var accepted := s.accepted + [s.producers[id].event];
        assert accepted[|s.accepted|] == s.producers[id].event;
      }
    }
  }

  lemma TraceStep<E(!new)>(s0: State<E>, actions: seq<Action<E>>, s1: State<E>, s: State<E>, id: int, event: E)
    requires actions != [] && Runs(s0, actions[..|actions| - 1], s1) && Inv(s1)
    requires Enabled(s1, actions[|actions| - 1]) && s == Next(s1, actions[|actions| - 1])
    requires Traced(s0, actions[..|actions| - 1], s1, id, event)
    ensures Traced(s0, actions, s, id, event)
  {
    var a := actions[|actions| - 1];
    AcceptedGrows(s1, a);
    if TurnedAway(s0, actions[..|actions| - 1], id) {
      TurnedAwayStays(s0, actions, id);
    }
    if IsBy(a, id) {
      OwnStep(s1, a, id);
      if (a.CheckClosed? && s1.closed) || (a.Send? && |s1.queue| >= USAGE_QUEUE_CAPACITY) {
        assert TurnedAwayAt(s0, actions, id, |actions| - 1, s1);
      }
    } else {
      OthersLeaveProducer(s1, a, id);
    }
  }

  lemma {:induction false} OfferIsTraced<E(!new)>(s0: State<E>, actions: seq<Action<E>>, s: State<E>, n: nat, id: int,
                                           event: E)
    requires Initial(s0) && Runs(s0, actions, s) && n < |actions| && actions[n] == Offer(id, event)
    ensures Traced(s0, actions, s, id, event)
    decreases |actions|
  {
    var s1 := BeforeLast(s0, actions, s);
    if n < |actions| - 1 {
      OfferIsTraced(s0, actions[..|actions| - 1], s1, n, id, event);
      RunKeepsInv(s0, actions[..|actions| - 1], s1);
      TraceStep(s0, actions, s1, s, id, event);
    }
  }

  /**
  In every interleaving, an event whose HandleUsage call has ended is among the accepted ones, unless that call
  found the plugin closed when it checked or the queue full when it sent.
  */
  lemma EventIsAcceptedOrTurnedAway<E(!new)>(s0: State<E>, actions: seq<Action<E>>, s: State<E>, n: nat, id: int,
                                      event: E)
    requires Initial(s0) && Runs(s0, actions, s) && n < |actions| && actions[n] == Offer(id, event)
    requires id in s.producers && s.producers[id].Finished?
    ensures event in s.accepted || TurnedAway(s0, actions, id)
  {
    OfferIsTraced(s0, actions, s, n, id, event);
  }

  ghost predicate NotBy<E>(actions: seq<Action<E>>, id: int) {
    forall a | a in actions :: !IsBy(a, id)
  }

  lemma {:induction false} SenderWaits<E>(s: State<E>, actions: seq<Action<E>>, s': State<E>, id: int)
    requires Runs(s, actions, s') && NotBy(actions, id) && id in s.producers
    ensures id in s'.producers && s'.producers[id] == s.producers[id]
    decreases |actions|
  {
    if actions != [] {
      assert actions[0] in actions && forall a | a in actions[1..] :: a in actions;
      OthersLeaveProducer(s, actions[0], id);
      SenderWaits(Next(s, actions[0]), actions[1..], s', id);
    }
  }

  /**
  A call that checked while the plugin was open, whatever the others do before it sends: if there is room then,
  exactly its event is appended, to the queue and to what was accepted.
  */
  lemma OpenCheckThenRoomAccepts<E>(s0: State<E>, before: seq<Action<E>>, s: State<E>, id: int, between: seq<Action<E>>,
                                    s1: State<E>)
    requires Initial(s0) && Runs(s0, before, s) && Enabled(s, CheckClosed(id)) && !s.closed
    requires Runs(Next(s, CheckClosed(id)), between, s1) && NotBy(between, id) && |s1.queue| < 1024
    ensures Enabled(s1, Send(id))
    ensures var s2 := Next(s1, Send(id));
            var event := s.producers[id].event;
            s2.queue == s1.queue + [event] && s2.accepted == s1.accepted + [event]
  {
    RunKeepsInv(s0, before, s);
    StepKeepsInv(s, CheckClosed(id));
    RunKeepsInv(Next(s, CheckClosed(id)), between, s1);
    SenderWaits(Next(s, CheckClosed(id)), between, s1, id);
  }

  /** A HandleUsage call up to its check. */
  lemma OfferAndLock<E>(s: State<E>, id: int, event: E)
    requires !s.panicked && s.hasWriter && id !in s.producers && NoWriter(s)
    ensures Runs(s, [Offer(id, event), RLock(id)], WithProducer(s, id, ReadLocked(event)))
  {
    var s1 := Next(s, Offer(id, event));
    assert WithProducer(s1, id, ReadLocked(event)) == WithProducer(s, id, ReadLocked(event));
    assert Runs(s, [], s);
    RunsOn(s, [], s, Offer(id, event));
    RunsOn(s, [] + [Offer(id, event)], s1, RLock(id));
    assert [] + [Offer(id, event)] + [RLock(id)] == [Offer(id, event), RLock(id)];
  }

  /** A HandleUsage call from its check on. */
  lemma CheckAndSend<E>(s: State<E>, id: int) returns (actions: seq<Action<E>>, s': State<E>)
    requires !s.panicked && (s.queueClosed ==> s.closed) && id in s.producers && s.producers[id].ReadLocked?
    ensures Runs(s, actions, s') && id in s'.producers && s'.producers[id].Finished?
    ensures var fits := !s.closed && |s.queue| < USAGE_QUEUE_CAPACITY;
            && s'.queue == (if fits then s.queue + [s.producers[id].event] else s.queue)
            && s'.accepted == (if fits then s.accepted + [s.producers[id].event] else s.accepted)
  {
    assert Runs(s, [], s);
    RunsOn(s, [], s, CheckClosed(id));
    actions, s' := [] + [CheckClosed(id)], Next(s, CheckClosed(id));
    if !s.closed {
      RunsOn(s, actions, s', Send(id));
      actions, s' := actions + [Send(id)], Next(s', Send(id));
    }
    RunsOn(s, actions, s', RUnlock(id));
    actions, s' := actions + [RUnlock(id)], Next(s', RUnlock(id));
  }

  /** A HandleUsage call that nobody disturbs adds its event if the plugin is open and there is room, else nothing. */
  lemma UndisturbedOffer<E>(s0: State<E>, before: seq<Action<E>>, s: State<E>, id: int, event: E)
    returns (actions: seq<Action<E>>, s': State<E>)
    requires Initial(s0) && Runs(s0, before, s) && s.hasWriter && id !in s.producers && NoWriter(s)
    ensures Runs(s, actions, s') && id in s'.producers && s'.producers[id].Finished?
    ensures var fits := !s.closed && |s.queue| < USAGE_QUEUE_CAPACITY;
            && s'.queue == (if fits then s.queue + [event] else s.queue)
            && s'.accepted == (if fits then s.accepted + [event] else s.accepted)
  {
    ReachableInv(s0, before, s);
    OfferAndLock(s, id, event);
    var locked := WithProducer(s, id, ReadLocked(event));
    actions, s' := CheckAndSend(locked, id);
    RunsConcat(s, [Offer(id, event), RLock(id)], locked, actions, s');
    actions := [Offer(id, event), RLock(id)] + actions;
  }

  /** A tick that the worker picks hands over what it has collected. */
  lemma TickFlushes<E>(s0: State<E>, actions: seq<Action<E>>, s: State<E>)
    requires Initial(s0) && Runs(s0, actions, s) && s.worker.Selecting? && s.batch != []
    ensures Enabled(s, Tick) && Enabled(Next(s, Tick), Flush)
    ensures var s' := Next(Next(s, Tick), Flush);
            s'.flushed == s.flushed + [s.batch] && s'.batch == [] && s'.worker.Selecting? && s'.queue == s.queue
  {
    ReachableInv(s0, actions, s);
  }

  /** A full batch is handed over before anything else is received. */
  lemma FullBatchIsFlushed<E>(s0: State<E>, actions: seq<Action<E>>, s: State<E>)
    requires Initial(s0) && Runs(s0, actions, s) && |s.batch| == USAGE_BATCH_SIZE
    ensures !Enabled(s, Receive) && Enabled(s, Flush) && Next(s, Flush).flushed == s.flushed + [s.batch]
    ensures |s.batch| == 100
  {
    ReachableInv(s0, actions, s);
    assert s.worker.Flushing?;
  }

  lemma TakeLock<E>(s: State<E>, id: int)
    requires !s.panicked && NoReader(s) && NoWriter(s)
    ensures var inside := WithCloser(s, id, InOnce).(once := Running);
            Enabled(inside, Lock(id)) && Next(inside, Lock(id)) == WithCloser(s, id, HasLock).(once := Running)
  {
    var inside := WithCloser(s, id, InOnce).(once := Running);
    assert forall i | i in inside.closers :: i == id || i in s.closers;
    assert NoReader(inside) && NoWriter(inside);
  }

  /** A Close call up to the write lock. */
  lemma CloseAndLock<E>(s: State<E>, id: int) returns (actions: seq<Action<E>>)
    requires !s.panicked && id !in s.closers && s.once.NotStarted? && NoReader(s) && NoWriter(s)
    ensures Runs(s, actions, WithCloser(s, id, HasLock).(once := Running))
  {
    var s1 := WithCloser(s, id, Entering);
    var s2 := WithCloser(s, id, InOnce).(once := Running);
    assert Next(s1, EnterOnce(id)) == s2;
    TakeLock(s, id);
    assert Runs(s, [], s);
    RunsOn(s, [], s, CallClose(id));
    RunsOn(s, [] + [CallClose(id)], s1, EnterOnce(id));
    RunsOn(s, [] + [CallClose(id)] + [EnterOnce(id)], s2, Lock(id));
    actions := [] + [CallClose(id)] + [EnterOnce(id)] + [Lock(id)];
  }

  /** A Close call from the write lock on. */
  lemma MarkAndClose<E>(s: State<E>, id: int) returns (actions: seq<Action<E>>, s': State<E>)
    requires !s.panicked && id in s.closers && s.closers[id].HasLock? && !s.queueClosed
    ensures Runs(s, actions, s') && s'.closed && s'.queueClosed && s'.queue == s.queue && s'.worker == s.worker
    ensures id in s'.closers && s'.closers[id].Waiting? && s'.once.Complete?
  {
    var s1 := Next(s, MarkClosed(id));
    var s2 := Next(s1, CloseQueue(id));
    assert Runs(s, [], s);
    RunsOn(s, [], s, MarkClosed(id));
    RunsOn(s, [] + [MarkClosed(id)], s1, CloseQueue(id));
    RunsOn(s, [] + [MarkClosed(id)] + [CloseQueue(id)], s2, Unlock(id));
    actions, s' := [] + [MarkClosed(id)] + [CloseQueue(id)] + [Unlock(id)], Next(s2, Unlock(id));
  }

  /**
  A first Close call that nobody disturbs while no reader is inside closes the queue and waits for the worker. It
  leaves what is queued to the worker.
  */
  lemma UndisturbedClose<E>(s0: State<E>, before: seq<Action<E>>, s: State<E>, id: int)
    returns (actions: seq<Action<E>>, s': State<E>)
    requires Initial(s0) && Runs(s0, before, s) && id !in s.closers && s.once.NotStarted? && NoReader(s) && NoWriter(s)
    ensures Runs(s, actions, s') && s'.closed && s'.queueClosed && s'.queue == s.queue && s'.worker == s.worker
    ensures id in s'.closers && s'.closers[id].Waiting? && s'.once.Complete?
  {
    ReachableInv(s0, before, s);
    var first := CloseAndLock(s, id);
    var locked := WithCloser(s, id, HasLock).(once := Running);
    actions, s' := MarkAndClose(locked, id);
    RunsConcat(s, first, locked, actions, s');
    actions := first + actions;
  }

  /** A waiting Close call returns without an error once the worker is done; before that only if its context ends. */
  lemma WaitingCloseReturns<E>(s: State<E>, id: int)
    requires !s.panicked && id in s.closers && s.closers[id].Waiting?
    ensures Enabled(s, Return(id, false)) <==> s.done
    ensures s.done ==> Next(s, Return(id, false)).closers[id] == Returned(true)
    ensures Enabled(s, Return(id, true)) && Next(s, Return(id, true)).closers[id] == Returned(false)
  {
  }

  // ---------------------------------------------------------------- the worker can always finish

  function WorkLeft<E>(s: State<E>): nat {
    2 * |s.queue| +
    match s.worker
    case Selecting => 3
    case Flushing(exit) => if exit then 2 else 4
    case Exited => 1
    case Gone => 0
  }

  /** The worker's next step once the queue is closed, if it never picks the ticker. */
  function DrainAction<E>(s: State<E>): Action<E> {
    match s.worker
    case Selecting => if s.queue != [] then Receive else ReceiveClosed
    case Flushing(_) => Flush
    case Exited => CloseDone
    case Gone => CloseDone
  }

  ghost predicate DrainsIn<E>(s: State<E>, n: nat)
    decreases n
  {
    s.done || (n > 0 && Enabled(s, DrainAction(s)) && DrainsIn(Next(s, DrainAction(s)), n - 1))
  }

  lemma DrainStepMakesProgress<E>(s: State<E>)
    requires Inv(s) && s.queueClosed && !s.done
    ensures var a := DrainAction(s);
            Enabled(s, a) && Inv(Next(s, a)) && Next(s, a).queueClosed && WorkLeft(Next(s, a)) < WorkLeft(s)
  {
    var a := DrainAction(s);
    assert Enabled(s, a);
    StepKeepsInv(s, a);
  }

  lemma {:induction false} DrainsFrom<E>(s: State<E>, n: nat)
    requires Inv(s) && s.queueClosed && WorkLeft(s) <= n
    ensures DrainsIn(s, n)
    decreases n
  {
    if !s.done {
      DrainStepMakesProgress(s);
      DrainsFrom(Next(s, DrainAction(s)), n - 1);
    }
  }

  lemma WorkLeftBound<E>(s: State<E>)
    ensures WorkLeft(s) <= 2 * |s.queue| + 4
  {
  }

  lemma DrainsWithinBound<E>(s: State<E>)
    requires Inv(s) && s.queueClosed
    ensures DrainsIn(s, 2 * |s.queue| + 4)
  {
    WorkLeftBound(s);
    DrainsFrom(s, 2 * |s.queue| + 4);
  }

  lemma ReachableInv<E>(s0: State<E>, actions: seq<Action<E>>, s: State<E>)
    requires Initial(s0) && Runs(s0, actions, s)
    ensures Inv(s)
  {
    RunKeepsInv(s0, actions, s);
  }

  /** After Close has closed the queue, the worker alone reaches done within 2 * |queue| + 4 steps. */
  lemma CloseLeadsToDone<E>(s0: State<E>, actions: seq<Action<E>>, s: State<E>)
    requires Initial(s0) && Runs(s0, actions, s) && s.queueClosed
    ensures DrainsIn(s, 2 * |s.queue| + 4)
  {
    ReachableInv(s0, actions, s);
    DrainsWithinBound(s);
  }

  predicate IsWorkerStep<E>(a: Action<E>) {
    a.Receive? || a.ReceiveClosed? || a.Flush? || a.CloseDone?
  }

  /** The worker's own steps among the actions. */
  function WorkerSteps<E>(actions: seq<Action<E>>): nat {
    if actions == [] then 0 else (if IsWorkerStep(actions[0]) then 1 else 0) + WorkerSteps(actions[1..])
  }

  function Ticks<E>(actions: seq<Action<E>>): nat {
    if actions == [] then 0 else (if actions[0].Tick? then 1 else 0) + Ticks(actions[1..])
  }

  /** With the queue closed, producers and Close calls leave the worker and its queue alone. */
  lemma OthersLeaveWork<E>(s: State<E>, a: Action<E>)
    requires Inv(s) && s.queueClosed && Enabled(s, a) && !IsWorkerStep(a) && !a.Tick?
    ensures var s' := Next(s, a); s'.queueClosed && s'.queue == s.queue && s'.worker == s.worker
  {
  }

  lemma WorkerStepOnWorkLeft<E>(s: State<E>, a: Action<E>)
    requires (s.done <==> s.worker.Gone?) && s.queueClosed && Enabled(s, a) && (IsWorkerStep(a) || a.Tick?)
    ensures var s' := Next(s, a);
            s'.queueClosed && if a.Tick? then WorkLeft(s') <= WorkLeft(s) + 1 else WorkLeft(s') < WorkLeft(s)
  {
  }

  lemma StepOnWorkLeft<E>(s: State<E>, a: Action<E>)
    requires Inv(s) && s.queueClosed && Enabled(s, a)
    ensures Next(s, a).queueClosed
    ensures WorkLeft(Next(s, a)) + (if IsWorkerStep(a) then 1 else 0) <= WorkLeft(s) + if a.Tick? then 1 else 0
  {
    if IsWorkerStep(a) || a.Tick? {
      WorkerStepOnWorkLeft(s, a);
    } else {
      OthersLeaveWork(s, a);
    }
  }

  lemma {:induction false} WorkIsBounded<E>(s: State<E>, actions: seq<Action<E>>, s': State<E>)
    requires Inv(s) && s.queueClosed && Runs(s, actions, s')
    ensures WorkLeft(s') + WorkerSteps(actions) <= WorkLeft(s) + Ticks(actions)
    decreases |actions|
  {
    if actions != [] {
      StepKeepsInv(s, actions[0]);
      StepOnWorkLeft(s, actions[0]);
      WorkIsBounded(Next(s, actions[0]), actions[1..], s');
    }
  }

  /**
  In every interleaving after the queue was closed: the worker takes at most 2 * |queue| + 4 steps of its
  own, and one more for every tick it picks.
  */
  lemma WorkerStepsAreBounded<E>(s0: State<E>, before: seq<Action<E>>, s: State<E>, after: seq<Action<E>>, s': State<E>)
    requires Initial(s0) && Runs(s0, before, s) && s.queueClosed && Runs(s, after, s')
    ensures WorkerSteps(after) <= 2 * |s.queue| + 4 + Ticks(after)
  {
    ReachableInv(s0, before, s);
    WorkLeftBound(s);
    WorkIsBounded(s, after, s');
  }

  /** Until done is closed, the worker always has such a step to take. */
  lemma WorkerCanStep<E>(s0: State<E>, actions: seq<Action<E>>, s: State<E>)
    requires Initial(s0) && Runs(s0, actions, s) && s.queueClosed && !s.done
    ensures IsWorkerStep(DrainAction(s)) && Enabled(s, DrainAction(s))
  {
    ReachableInv(s0, actions, s);
    DrainStepMakesProgress(s);
  }
}
