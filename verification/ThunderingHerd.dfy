/**
  One producer and a pool of workers share a bounded queue guarded by one mutex
  and two condition variables.  Every atomic action of every thread is a step:
  taking or releasing the mutex, evaluating a wait predicate, touching the queue,
  and issuing a notification (which happens after the mutex has been released).
 */
module ThunderingHerd {
  import opened Totals

  /** `Lock` is waiting for the mutex, either at the top of the loop or inside
      `wait` after having been woken. */
  datatype WorkerPc = Lock | Check | Asleep | Test | Unlock | Notify | Leave | Exited

  datatype ProducerPc =
    | Loop | PLock | PCheck | PAsleep | Push | PUnlock | NotifyAll
    | FinLock | FinSet | FinUnlock | FinNotifyAll | PExited

  datatype Owner = Free | Producer | Worker(w: nat)

  datatype Conf = Conf(workerCount: nat, msgCount: nat, maxSize: nat)

  /** The queue's own default capacity. */
  const MAX_SIZE: nat := 128

  /** An item handed to a worker. */
  datatype Delivery = Delivery(worker: nat, item: int)

  datatype State = State(
    q: seq<int>,
    finished: bool,
    owner: Owner,
    workers: seq<WorkerPc>,
    producer: ProducerPc,
    i: nat,
    item: int,
    log: seq<Delivery>)

  /** Who moves next; a spurious wake-up is a move of the environment. */
  datatype Move = WorkerMove(w: nat) | ProducerMove | SpuriousWorker(w: nat) | SpuriousProducer

  function Start(c: Conf): State {
    State([], false, Free, seq(c.workerCount, _ => Lock), Loop, 0, 0, [])
  }

  /* ---------- the steps ---------- */

  predicate WorkerEnabled(s: State, w: nat)
    requires w < |s.workers|
  {
    match s.workers[w]
    case Lock => s.owner == Free
    case Asleep | Exited => false
    case _ => true
  }

  function WorkerStep(s: State, w: nat): State
    requires w < |s.workers|
  {
    var at := (pc: WorkerPc) => s.workers[w := pc];
    match s.workers[w]
    case Lock =>
      s.(owner := Worker(w), workers := at(Check))
    case Check =>
      if s.q != [] || s.finished then s.(workers := at(Test))
      else s.(owner := Free, workers := at(Asleep))
    case Test =>
      if s.q == [] && s.finished then s.(workers := at(Leave))
      else if s.q == [] then s // never: the wait predicate held and the mutex is ours
      else s.(q := s.q[1..], log := s.log + [Delivery(w, s.q[0])], workers := at(Unlock))
    case Unlock =>
      s.(owner := Free, workers := at(Notify))
    case Notify =>
      s.(producer := if s.producer == PAsleep then PLock else s.producer, workers := at(Lock))
    case Leave =>
      s.(owner := Free, workers := at(Exited))
    case _ => s
  }

  predicate ProducerEnabled(s: State) {
    match s.producer
    case PLock | FinLock => s.owner == Free
    case PAsleep | PExited => false
    case _ => true
  }

  /** `notify_all` moves every sleeper to the mutex. */
  function Wake(workers: seq<WorkerPc>): (r: seq<WorkerPc>)
    ensures |r| == |workers|
    ensures forall w :: 0 <= w < |r| ==> r[w] == if workers[w] == Asleep then Lock else workers[w]
  {
    seq(|workers|, w requires 0 <= w < |workers| => if workers[w] == Asleep then Lock else workers[w])
  }

  function ProducerStep(c: Conf, s: State): State {
    match s.producer
    case Loop =>
      s.(producer := if s.i < c.msgCount then PLock else FinLock)
    case PLock =>
      s.(owner := Producer, producer := PCheck)
    case PCheck =>
      if |s.q| < c.maxSize then s.(producer := Push)
      else s.(owner := Free, producer := PAsleep)
    case Push =>
      s.(q := s.q + [s.item], producer := PUnlock)
    case PUnlock =>
      s.(owner := Free, producer := NotifyAll)
    case NotifyAll =>
      s.(workers := Wake(s.workers), item := s.item + 1, i := s.i + 1, producer := Loop)
    case FinLock =>
      s.(owner := Producer, producer := FinSet)
    case FinSet =>
      s.(finished := true, producer := FinUnlock)
    case FinUnlock =>
      s.(owner := Free, producer := FinNotifyAll)
    case FinNotifyAll =>
      s.(workers := Wake(s.workers), producer := PExited)
    case _ => s
  }

  predicate Enabled(s: State, m: Move) {
    match m
    case WorkerMove(w) => w < |s.workers| && WorkerEnabled(s, w)
    case ProducerMove => ProducerEnabled(s)
    case SpuriousWorker(w) => w < |s.workers| && s.workers[w] == Asleep
    case SpuriousProducer => s.producer == PAsleep
  }

  predicate Spurious(m: Move) {
    m.SpuriousWorker? || m.SpuriousProducer?
  }

  function Next(c: Conf, s: State, m: Move): State
    requires Enabled(s, m)
  {
    match m
    case WorkerMove(w) => WorkerStep(s, w)
    case ProducerMove => ProducerStep(c, s)
    case SpuriousWorker(w) => s.(workers := s.workers[w := Lock])
    case SpuriousProducer => s.(producer := PLock)
  }

  /* ---------- the invariant ---------- */

  predicate WorkerHolds(pc: WorkerPc) { pc in {Check, Test, Unlock, Leave} }

  predicate ProducerHolds(pc: ProducerPc) { pc in {PCheck, Push, PUnlock, FinSet, FinUnlock} }

  predicate NotifyAllPending(s: State) {
    s.producer in {PUnlock, NotifyAll, FinUnlock, FinNotifyAll}
  }

  predicate NotifyOnePending(s: State) {
    exists w :: 0 <= w < |s.workers| && s.workers[w] in {Unlock, Notify}
  }

  predicate SomeWorkerAsleep(s: State) {
    exists w :: 0 <= w < |s.workers| && s.workers[w] == Asleep
  }

  /** How many items have been pushed. */
  function Pushed(s: State): nat {
    s.i + if s.producer in {PUnlock, NotifyAll} then 1 else 0
  }

  /** The mutex has one owner, and it is the thread inside a critical section. */
  predicate MutexInv(s: State) {
    && (forall w :: 0 <= w < |s.workers| ==> (WorkerHolds(s.workers[w]) <==> s.owner == Worker(w)))
    && (ProducerHolds(s.producer) <==> s.owner == Producer)
    && (s.owner.Worker? ==> s.owner.w < |s.workers|)
  }

  predicate ProducerInv(c: Conf, s: State) {
    && s.item == s.i
    && (s.producer in {PLock, PCheck, PAsleep, Push, PUnlock, NotifyAll} ==> s.i < c.msgCount)
    && (s.producer in {FinLock, FinSet, FinUnlock, FinNotifyAll, PExited} ==> s.i == c.msgCount)
    && s.i <= c.msgCount
    && (s.finished <==> s.producer in {FinUnlock, FinNotifyAll, PExited})
    && (s.producer == Push ==> |s.q| < c.maxSize)
  }

  /** What was popped, then what is queued, is exactly what was pushed, in order. */
  predicate QueueInv(c: Conf, s: State) {
    && |s.log| + |s.q| == Pushed(s)
    && (forall k :: 0 <= k < |s.log| ==> s.log[k].item == k && s.log[k].worker < c.workerCount)
    && (forall k :: 0 <= k < |s.q| ==> s.q[k] == |s.log| + k)
    && |s.q| <= c.maxSize
    && (c.maxSize == 0 ==> s.log == [])
  }

  predicate WorkerInv(s: State, pc: WorkerPc) {
    && (pc == Test ==> s.q != [] || s.finished)
    && (pc in {Leave, Exited} ==> s.q == [] && s.finished)
  }

  /** A sleeping worker with something to do, or a sleeping producer with room to
      push, always has a notification on its way. */
  predicate NoLostWakeup(c: Conf, s: State) {
    && (SomeWorkerAsleep(s) && (s.q != [] || s.finished) ==> NotifyAllPending(s))
    && (s.producer == PAsleep && |s.q| < c.maxSize ==> NotifyOnePending(s))
  }

  predicate Inv(c: Conf, s: State) {
    && |s.workers| == c.workerCount
    && MutexInv(s)
    && ProducerInv(c, s)
    && QueueInv(c, s)
    && (forall w :: 0 <= w < |s.workers| ==> WorkerInv(s, s.workers[w]))
    && NoLostWakeup(c, s)
  }

  lemma StartInv(c: Conf)
    ensures Inv(c, Start(c))
  {}

  lemma WorkerStepMutex(s: State, w: nat)
    requires MutexInv(s) && w < |s.workers| && WorkerEnabled(s, w)
    ensures MutexInv(WorkerStep(s, w))
  {
    var t := WorkerStep(s, w);
    assert forall v :: 0 <= v < |s.workers| && v != w ==> t.workers[v] == s.workers[v];
  }

  lemma WorkerStepQueue(c: Conf, s: State, w: nat)
    requires ProducerInv(c, s) && QueueInv(c, s) && w < |s.workers| == c.workerCount && WorkerEnabled(s, w)
    ensures ProducerInv(c, WorkerStep(s, w)) && QueueInv(c, WorkerStep(s, w))
  {}

  lemma WorkerStepWorkers(s: State, w: nat)
    requires MutexInv(s) && w < |s.workers| && WorkerEnabled(s, w)
    requires forall v :: 0 <= v < |s.workers| ==> WorkerInv(s, s.workers[v])
    ensures var t := WorkerStep(s, w);
      forall v :: 0 <= v < |t.workers| ==> WorkerInv(t, t.workers[v])
  {
    var t := WorkerStep(s, w);
    forall v | 0 <= v < |t.workers| ensures WorkerInv(t, t.workers[v]) {
      assert WorkerInv(s, s.workers[v]) && (v != w ==> t.workers[v] == s.workers[v]);
      assert WorkerInv(s, s.workers[w]);
    }
  }

  lemma WorkerStepWakeup(c: Conf, s: State, w: nat)
    requires NoLostWakeup(c, s) && w < |s.workers| && WorkerEnabled(s, w)
    requires WorkerInv(s, s.workers[w]) && |s.q| <= c.maxSize
    ensures NoLostWakeup(c, WorkerStep(s, w))
  {
    var t := WorkerStep(s, w);
    assert t.workers[w] == t.workers[w];
    assert forall v :: 0 <= v < |s.workers| && v != w ==> t.workers[v] == s.workers[v];
  }

  lemma WorkerStepInv(c: Conf, s: State, w: nat)
    requires Inv(c, s) && w < |s.workers| && WorkerEnabled(s, w)
    ensures Inv(c, WorkerStep(s, w))
  {
    assert |s.q| <= c.maxSize && WorkerInv(s, s.workers[w]);
    hide MutexInv, ProducerInv, QueueInv, WorkerInv, NoLostWakeup, WorkerEnabled;
    WorkerStepMutex(s, w);
    WorkerStepQueue(c, s, w);
    WorkerStepWorkers(s, w);
    WorkerStepWakeup(c, s, w);
  }

  lemma ProducerStepMutex(c: Conf, s: State)
    requires MutexInv(s) && ProducerEnabled(s)
    ensures MutexInv(ProducerStep(c, s))
  {}

  lemma ProducerStepQueue(c: Conf, s: State)
    requires ProducerInv(c, s) && QueueInv(c, s) && ProducerEnabled(s)
    ensures ProducerInv(c, ProducerStep(c, s)) && QueueInv(c, ProducerStep(c, s))
  {}

  lemma ProducerStepWorkers(c: Conf, s: State)
    requires ProducerInv(c, s) && ProducerEnabled(s)
    requires forall v :: 0 <= v < |s.workers| ==> WorkerInv(s, s.workers[v])
    ensures var t := ProducerStep(c, s);
      forall v :: 0 <= v < |t.workers| ==> WorkerInv(t, t.workers[v])
  {
    var t := ProducerStep(c, s);
    forall v | 0 <= v < |t.workers| ensures WorkerInv(t, t.workers[v]) {
      assert WorkerInv(s, s.workers[v]);
    }
  }

  lemma ProducerStepWakeup(c: Conf, s: State)
    requires NoLostWakeup(c, s) && ProducerInv(c, s) && ProducerEnabled(s)
    ensures NoLostWakeup(c, ProducerStep(c, s))
  {
    var t := ProducerStep(c, s);
    assert NotifyOnePending(s) && t.workers == s.workers ==> NotifyOnePending(t);
  }

  lemma ProducerStepInv(c: Conf, s: State)
    requires Inv(c, s) && ProducerEnabled(s)
    ensures Inv(c, ProducerStep(c, s))
  {
    assert |ProducerStep(c, s).workers| == |s.workers|;
    hide MutexInv, ProducerInv, QueueInv, WorkerInv, NoLostWakeup, ProducerEnabled, ProducerStep;
    ProducerStepMutex(c, s);
    ProducerStepQueue(c, s);
    ProducerStepWorkers(c, s);
    ProducerStepWakeup(c, s);
  }

  /** Every step keeps the invariant, spurious wake-ups included. */
  lemma NextInv(c: Conf, s: State, m: Move)
    requires Inv(c, s) && Enabled(s, m)
    ensures Inv(c, Next(c, s, m))
  {
    match m
    case WorkerMove(w) => WorkerStepInv(c, s, w);
    case ProducerMove => ProducerStepInv(c, s);
    case SpuriousWorker(w) =>
      var t := Next(c, s, m);
      assert forall v :: 0 <= v < |s.workers| && v != w ==> t.workers[v] == s.workers[v];
    case SpuriousProducer =>
  }

  /* ---------- progress ---------- */

  predicate AllExited(s: State) {
    s.producer == PExited && forall w :: 0 <= w < |s.workers| ==> s.workers[w] == Exited
  }

  predicate ThreadCanMove(s: State) {
    ProducerEnabled(s) || exists w :: 0 <= w < |s.workers| && WorkerEnabled(s, w)
  }

  predicate InCriticalSection(s: State) {
    ProducerHolds(s.producer) || exists w :: 0 <= w < |s.workers| && WorkerHolds(s.workers[w])
  }

  /** Who can move: a thread that wants the mutex, when nobody is in a critical section;
      a sleeper, by itself, never, though it may wake up for no reason at any time; any
      other thread that has not exited, always. */
  lemma WhoCanMove(c: Conf, s: State, w: nat)
    requires Inv(c, s) && w < |s.workers|
    ensures Enabled(s, WorkerMove(w)) <==>
            s.workers[w] !in {Asleep, Exited} && (s.workers[w] == Lock ==> !InCriticalSection(s))
    ensures Enabled(s, ProducerMove) <==>
            s.producer !in {PAsleep, PExited} && (s.producer in {PLock, FinLock} ==> !InCriticalSection(s))
    ensures Enabled(s, SpuriousWorker(w)) <==> s.workers[w] == Asleep
    ensures Enabled(s, SpuriousProducer) <==> s.producer == PAsleep
  {
    hide ProducerInv, QueueInv, WorkerInv, NoLostWakeup;
    assert s.owner.Worker? ==> WorkerHolds(s.workers[s.owner.w]);
  }

  /** The producer can push everything: somebody pops, or there is room for it all. */
  predicate CanFinish(c: Conf) {
    c.msgCount <= c.maxSize || (c.workerCount > 0 && c.maxSize > 0)
  }

  /** Every message can reach a worker. */
  predicate CanDeliver(c: Conf) {
    c.msgCount == 0 || (c.workerCount > 0 && c.maxSize > 0)
  }

  lemma NoWorkersNoDeliveries(c: Conf, s: State)
    requires Inv(c, s) && c.workerCount == 0
    ensures s.log == []
  {
    assert s.log != [] ==> s.log[0].worker < c.workerCount;
  }

  /** If everybody sleeps or is gone, either all are gone or the configuration was hopeless. */
  lemma EverybodyIdle(c: Conf, s: State)
    requires Inv(c, s)
    requires s.producer in {PAsleep, PExited}
    requires forall w :: 0 <= w < |s.workers| ==> s.workers[w] in {Asleep, Exited}
    ensures AllExited(s) || !CanFinish(c)
  {
    assert !NotifyOnePending(s);
    if c.workerCount == 0 {
      NoWorkersNoDeliveries(c, s);
    } else if s.producer == PAsleep {
      assert s.workers[0] == Asleep;
    }
    assert SomeWorkerAsleep(s) || forall w :: 0 <= w < |s.workers| ==> s.workers[w] == Exited;
  }

  /** Nobody is ever stuck: until all threads have exited, one of them can move. */
  lemma Progress(c: Conf, s: State)
    requires Inv(c, s) && CanFinish(c) && !AllExited(s)
    ensures ThreadCanMove(s)
  {
    if s.owner.Worker? {
      assert WorkerEnabled(s, s.owner.w);
    } else if w :| 0 <= w < |s.workers| && s.workers[w] !in {Asleep, Exited} {
      assert ProducerEnabled(s) || WorkerEnabled(s, w);
    } else if s.producer in {PAsleep, PExited} {
      EverybodyIdle(c, s);
    }
  }

  /** Every message went to exactly one worker, in the order of production. */
  predicate AllDelivered(c: Conf, s: State) {
    && s.q == []
    && |s.log| == c.msgCount
    && forall k :: 0 <= k < |s.log| ==> s.log[k].item == k && s.log[k].worker < c.workerCount
  }

  /** A worker leaves its loop only when everything has been delivered. */
  lemma LeavingMeansDelivered(c: Conf, s: State, w: nat)
    requires Inv(c, s) && w < |s.workers| && s.workers[w] in {Leave, Exited}
    ensures AllDelivered(c, s)
  {}

  lemma ExitNeedsRoom(c: Conf, s: State)
    requires Inv(c, s) && AllExited(s)
    ensures CanFinish(c)
    ensures AllDelivered(c, s) <==> CanDeliver(c)
  {
    if c.workerCount > 0 {
      LeavingMeansDelivered(c, s, 0);
    } else {
      NoWorkersNoDeliveries(c, s);
    }
  }

  /* ---------- termination ---------- */

  /** Pushes and `notify_all` calls still to come. */
  function Outstanding(c: Conf, s: State): nat
    requires Pushed(s) <= c.msgCount && s.i <= c.msgCount
  {
    (c.msgCount - Pushed(s)) + (c.msgCount - s.i) + if s.producer == PExited then 0 else 1
  }

  /** Steps a worker can take before it pops or sleeps; a pending `notify_one` is
      worth the three steps of the producer it may wake for nothing. */
  function WorkerWeight(pc: WorkerPc): nat {
    match pc
    case Unlock => 9
    case Notify => 8
    case Lock => 4
    case Check => 3
    case Test => 2
    case Leave => 1
    case Asleep | Exited => 0
  }

  function ProducerWeight(pc: ProducerPc): nat {
    match pc
    case Loop => 4
    case PLock | FinLock => 3
    case PCheck | FinSet => 2
    case Push | PUnlock | FinUnlock => 1
    case _ => 0
  }

  function Effort(s: State): nat {
    Total(s.workers, WorkerWeight) + ProducerWeight(s.producer)
  }

  /** Lexicographic comparison of (outstanding, queue length, effort). */
  predicate Less(c: Conf, t: State, s: State)
    requires Inv(c, s) && Inv(c, t)
  {
    || Outstanding(c, t) < Outstanding(c, s)
    || (Outstanding(c, t) == Outstanding(c, s) && |t.q| < |s.q|)
    || (Outstanding(c, t) == Outstanding(c, s) && |t.q| == |s.q| && Effort(t) < Effort(s))
  }

  lemma WorkerStepDecreases(c: Conf, s: State, w: nat)
    requires Inv(c, s) && w < |s.workers| && WorkerEnabled(s, w) && Inv(c, WorkerStep(s, w))
    ensures Less(c, WorkerStep(s, w), s)
  {
    var t := WorkerStep(s, w);
    assert WorkerInv(s, s.workers[w]);
    hide MutexInv, QueueInv, NoLostWakeup;
    TotalUpdate(s.workers, w, t.workers[w], WorkerWeight);
    assert s.workers[w := t.workers[w]] == t.workers;
    hide Total;
  }

  lemma ProducerStepDecreases(c: Conf, s: State)
    requires Inv(c, s) && ProducerEnabled(s) && Inv(c, ProducerStep(c, s))
    ensures Less(c, ProducerStep(c, s), s)
  {
    hide MutexInv, QueueInv, NoLostWakeup, WorkerInv, Total;
  }

  /** Every step that is not a spurious wake-up makes progress. */
  lemma StepDecreases(c: Conf, s: State, m: Move)
    requires Inv(c, s) && Enabled(s, m) && !Spurious(m)
    ensures Inv(c, Next(c, s, m))
    ensures Less(c, Next(c, s, m), s)
  {
    NextInv(c, s, m);
    hide Inv, Less, WorkerStep, ProducerStep, WorkerEnabled, ProducerEnabled;
    match m
    case WorkerMove(w) => WorkerStepDecreases(c, s, w);
    case ProducerMove => ProducerStepDecreases(c, s);
  }

  /* ---------- whole runs ---------- */

  /** Either the mover moves, or the run is over and the state stays as it is. */
  ghost predicate Follows(c: Conf, s: State, m: Move, t: State) {
    || (Enabled(s, m) && t == Next(c, s, m))
    || (!ThreadCanMove(s) && t == s)
  }

  /** An infinite record of a run under some scheduler. */
  ghost predicate IsRun(c: Conf, run: nat -> State, moves: nat -> Move) {
    && run(0) == Start(c)
    && forall n: nat :: Follows(c, run(n), moves(n), run(n + 1))
  }

  lemma {:induction false} RunInv(c: Conf, run: nat -> State, moves: nat -> Move, n: nat)
    requires IsRun(c, run, moves)
    ensures Inv(c, run(n))
  {
    if n == 0 {
      StartInv(c);
    } else {
      RunInv(c, run, moves, n - 1);
      assert Follows(c, run(n - 1), moves(n - 1), run(n));
      if run(n) != run(n - 1) {
        NextInv(c, run(n - 1), moves(n - 1));
      }
    }
  }

  /** What holds at every moment of every run: no wake-up is lost, the queue is
      bounded, and what was popped followed by what is queued is what was pushed. */
  lemma Safety(c: Conf, run: nat -> State, moves: nat -> Move, n: nat)
    requires IsRun(c, run, moves)
    ensures NoLostWakeup(c, run(n)) && MutexInv(run(n)) && QueueInv(c, run(n))
    ensures forall w :: 0 <= w < |run(n).workers| && run(n).workers[w] in {Leave, Exited}
              ==> AllDelivered(c, run(n))
  {
    RunInv(c, run, moves, n);
  }

  /** The worker that takes an item off the queue gets that item. */
  predicate Hands(s: State, m: Move, t: State) {
    && m.WorkerMove? && m.w < |s.workers| && s.workers[m.w] == Test && s.q != []
    && t.log == s.log + [Delivery(m.w, s.q[0])] && t.q == s.q[1..]
  }

  /** Only a worker that pops changes what has been delivered, one item at a time. */
  lemma StepDelivers(c: Conf, s: State, m: Move)
    requires Enabled(s, m)
    ensures Next(c, s, m).log == s.log || Hands(s, m, Next(c, s, m))
  {}

  /** Every delivery of a run was the pop of that item by that worker, at its turn. */
  lemma {:induction false} DeliveredByPop(c: Conf, run: nat -> State, moves: nat -> Move, n: nat, k: nat) returns (m: nat)
    requires IsRun(c, run, moves) && k < |run(n).log|
    ensures m < n && Hands(run(m), moves(m), run(m + 1))
    ensures |run(m).log| == k && run(m + 1).log[k] == run(n).log[k] && run(n).log[k].worker == moves(m).w
  {
    assert n > 0;
    var s, t := run(n - 1), run(n);
    assert Follows(c, s, moves(n - 1), t);
    if t != s {
      StepDelivers(c, s, moves(n - 1));
    }
    if k < |s.log| {
      m := DeliveredByPop(c, run, moves, n - 1, k);
      assert t.log[k] == s.log[k];
    } else {
      m := n - 1;
    }
  }

  /** From a moment on, the environment wakes nobody for no reason. */
  ghost predicate QuietFrom(moves: nat -> Move, k: nat) {
    forall n :: n >= k ==> !Spurious(moves(n))
  }

  lemma {:induction false} RunsStop(c: Conf, run: nat -> State, moves: nat -> Move, k: nat) returns (n: nat)
    requires IsRun(c, run, moves) && QuietFrom(moves, k) && Inv(c, run(k))
    ensures n >= k && !ThreadCanMove(run(n))
    decreases Outstanding(c, run(k)), |run(k).q|, Effort(run(k))
  {
    if !ThreadCanMove(run(k)) {
      n := k;
    } else {
      assert Follows(c, run(k), moves(k), run(k + 1));
      StepDecreases(c, run(k), moves(k));
      n := RunsStop(c, run, moves, k + 1);
    }
  }

  /** Every run with finitely many spurious wake-ups ends with all threads gone
      exactly when the producer can push everything, and with every message delivered
      once and in order exactly when somebody can pop; otherwise no run gets there. */
  lemma EveryRunCompletes(c: Conf, run: nat -> State, moves: nat -> Move, k: nat)
    requires IsRun(c, run, moves) && QuietFrom(moves, k)
    ensures (exists n: nat :: AllExited(run(n))) <==> CanFinish(c)
    ensures (exists n: nat :: AllExited(run(n)) && AllDelivered(c, run(n))) <==> CanDeliver(c)
  {
    forall n: nat | AllExited(run(n))
      ensures CanFinish(c) && (AllDelivered(c, run(n)) <==> CanDeliver(c))
    {
      RunInv(c, run, moves, n);
      ExitNeedsRoom(c, run(n));
    }
    if CanFinish(c) {
      RunInv(c, run, moves, k);
      var n := RunsStop(c, run, moves, k);
      RunInv(c, run, moves, n);
      if !AllExited(run(n)) {
        Progress(c, run(n));
      }
    }
  }

  /** With the default capacity, a run in which the environment falls quiet ends with
      every message delivered exactly if there is a worker or nothing to deliver; and it
      ends at all exactly if there is a worker or all messages fit into the queue. */
  lemma OneWorkerIsEnough(workers: nat, messages: nat, run: nat -> State, moves: nat -> Move, k: nat)
    requires IsRun(Conf(workers, messages, MAX_SIZE), run, moves) && QuietFrom(moves, k)
    ensures (exists n: nat :: AllExited(run(n)) && AllDelivered(Conf(workers, messages, MAX_SIZE), run(n)))
            <==> workers > 0 || messages == 0
    ensures (exists n: nat :: AllExited(run(n))) <==> workers > 0 || messages <= 128
  {
    hide AllExited, AllDelivered, IsRun, QuietFrom;
    EveryRunCompletes(Conf(workers, messages, MAX_SIZE), run, moves, k);
  }

  /* ---------- the program's own state, updated in place ---------- */

  /** The shared queue together with where each thread stands. */
  class Herd {
    const conf: Conf
    var q: seq<int>
    var finished: bool
    var owner: Owner
    var workers: seq<WorkerPc>
    var producer: ProducerPc
    var i: nat
    var item: int
    var log: seq<Delivery>

    function View(): State
      reads this
    {
      State(q, finished, owner, workers, producer, i, item, log)
    }

    constructor (workerCount: nat, msgCount: nat, maxSize: nat := MAX_SIZE)
      ensures conf == Conf(workerCount, msgCount, maxSize)
      ensures View() == Start(conf)
    {
      conf := Conf(workerCount, msgCount, maxSize);
      q, finished, owner := [], false, Free;
      workers := seq(workerCount, _ => Lock);
      producer, i, item, log := Loop, 0, 0, [];
    }

    /** One atomic action of worker `w`. */
    method WorkerAct(w: nat)
      requires w < |workers| && WorkerEnabled(View(), w)
      modifies this
      ensures View() == WorkerStep(old(View()), w)
    {
      match workers[w] {
        case Lock =>
          owner := Worker(w);
          workers := workers[w := Check];
        case Check =>
          if q != [] || finished {
            workers := workers[w := Test];
          } else {
            owner := Free;
            workers := workers[w := Asleep];
          }
        case Test =>
          if q == [] && finished {
            workers := workers[w := Leave];
          } else if q != [] {
            log := log + [Delivery(w, q[0])];
            q := q[1..];
            workers := workers[w := Unlock];
          }
        case Unlock =>
          owner := Free;
          workers := workers[w := Notify];
        case Notify =>
          if producer == PAsleep {
            producer := PLock;
          }
          workers := workers[w := Lock];
        case Leave =>
          owner := Free;
          workers := workers[w := Exited];
        case _ =>
      }
    }

    /** One atomic action of the producer. */
    method ProducerAct()
      requires ProducerEnabled(View())
      modifies this
      ensures View() == ProducerStep(conf, old(View()))
    {
      match producer {
        case Loop =>
          producer := if i < conf.msgCount then PLock else FinLock;
        case PLock =>
          owner, producer := Producer, PCheck;
        case PCheck =>
          if |q| < conf.maxSize {
            producer := Push;
          } else {
            owner, producer := Free, PAsleep;
          }
        case Push =>
          q, producer := q + [item], PUnlock;
        case PUnlock =>
          owner, producer := Free, NotifyAll;
        case NotifyAll =>
          workers := Wake(workers);
          item := item + 1;
          i := i + 1;
          producer := Loop;
        case FinLock =>
          owner, producer := Producer, FinSet;
        case FinSet =>
          finished, producer := true, FinUnlock;
        case FinUnlock =>
          owner, producer := Free, FinNotifyAll;
        case FinNotifyAll =>
          workers, producer := Wake(workers), PExited;
        case _ =>
      }
    }

    /** One scheduling decision: any thread that can move, or, while the budget
        lasts, a spurious wake-up. */
    method Schedule(budget: nat) returns (left: nat)
      requires Inv(conf, View()) && CanFinish(conf) && !AllExited(View())
      modifies this
      ensures Inv(conf, View())
      ensures left < budget || (left == budget && Less(conf, View(), old(View())))
    {
      Progress(conf, View());
      hide Inv, Less, WorkerStep, ProducerStep;
      left := budget;
      if {
        case ProducerEnabled(View()) =>
          StepDecreases(conf, View(), ProducerMove);
          ProducerAct();
        case exists w :: 0 <= w < |workers| && WorkerEnabled(View(), w) =>
          var w :| 0 <= w < |workers| && WorkerEnabled(View(), w);
          StepDecreases(conf, View(), WorkerMove(w));
          WorkerAct(w);
        case budget > 0 && producer == PAsleep =>
          NextInv(conf, View(), SpuriousProducer);
          producer, left := PLock, budget - 1;
        case budget > 0 && exists w :: 0 <= w < |workers| && workers[w] == Asleep =>
          var w :| 0 <= w < |workers| && workers[w] == Asleep;
          NextInv(conf, View(), SpuriousWorker(w));
          workers, left := workers[w := Lock], budget - 1;
      }
    }

    /** Runs all threads under an arbitrary scheduler, with at most `spurious`
        wake-ups for no reason, until every thread can be joined. */
    method Run(spurious: nat)
      requires View() == Start(conf) && CanFinish(conf)
      modifies this
      ensures AllExited(View())
      ensures AllDelivered(conf, View()) <==> CanDeliver(conf)
    {
      var budget := spurious;
      StartInv(conf);
      while !AllExited(View())
        invariant Inv(conf, View())
        decreases budget, Outstanding(conf, View()), |q|, Effort(View())
      {
        budget := Schedule(budget);
      }
      ExitNeedsRoom(conf, View());
    }
  }
}
