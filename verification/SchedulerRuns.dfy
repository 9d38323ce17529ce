/** The scheduler over whole runs: every step keeps the invariant, and what it means. */
module SchedulerRuns {
  import opened Genesis
  import opened Scheduler
  import opened SchedulerLaws

  // ---- The shape between events ----

  /** Work waits only when nobody is idle, and the pool has the size asked for or is shrinking towards it. */
  ghost predicate Shape(p: Pool) {
    && p.size >= 1
    && (!p.started ==> p.workers == [] && p.queue == [])
    && (p.started ==> |p.workers| >= p.size)
    && (p.idle != [] ==> p.queue == [])
    && (|p.workers| > p.size ==> p.idle == [])
  }

  /** The same with a free worker about to take one queued job. */
  ghost predicate NearShape(p: Pool) {
    && p.started && p.size >= 1 && |p.workers| >= p.size
    && (p.idle != [] ==> |p.queue| <= 1)
    && (|p.workers| > p.size ==> p.idle == [])
  }


  lemma LooseIsWorker(p: Pool, a: map<nat, Answer>, w: nat, hand: Option<Job>)
    requires Core(p, a, {w}, hand)
    ensures w in p.workers
  {
    hide JobsApart, JobsAll, AttemptsOk, MessagesOk, VerdictsOk;
  }

  lemma HeadCanBeTried(p: Pool, a: map<nat, Answer>, loose: set<nat>, hand: Option<Job>)
    requires Core(p, a, loose, hand) && p.queue != []
    ensures p.queue[0].attempts < MAX_ATTEMPTS
  {
    assert QueuedOk(p.queue[0], p.sent);
    hide WorkersOk, JobsApart, JobsAll, MessagesOk, VerdictsOk;
  }

  lemma ReleaseKeeps(p: Pool, a: map<nat, Answer>, w: nat)
    requires Core(p, a, {w}, None) && NearShape(p)
    ensures Core(Release(p, w), a, {}, None) && Shape(Release(p, w))
  {
    LooseIsWorker(p, a, w, None);
    hide Core;
    if p.queue != [] {
      HeadCanBeTried(p, a, {w}, None);
      DequeueKeeps(p, a, {w});
      DispatchKeeps(p.(queue := p.queue[1..]), a, w, p.queue[0]);
    } else if |p.workers| > p.size {
      RetireKeeps(p, a, w, None);
    } else {
      ParkKeeps(p, a, w, None);
    }
  }

  // ---- Answers ----

  lemma BusyIsWorker(p: Pool, a: map<nat, Answer>, w: nat)
    requires Core(p, a, {}, None) && w in p.busy
    ensures w in p.workers && w !in p.idle
  {
    hide JobsApart, JobsAll, AttemptsOk, MessagesOk, VerdictsOk;
  }

  /** The answer a busy worker owes. */
  lemma ReplyKeeps(p: Pool, a: map<nat, Answer>, w: nat, answer: Answer)
    requires Core(p, a, {}, None) && Shape(p) && w in p.busy
    ensures var id, q := p.busy[w].id, Reply(p, w, p.busy[w].id, answer);
      Core(q, a[id := answer], {}, None) && Shape(q)
  {
    BusyIsWorker(p, a, w);
    hide Core;
    var id, job := p.busy[w].id, p.busy[w].job;
    var q := p.(busy := p.busy - {w});
    PickUpKeeps(p, a, w, answer);
    if answer.Err? {
      RetryOrFailKeeps(q, a[id := answer], {w}, job);
    } else {
      SettleKeeps(q, a[id := answer], {w}, job, Verdict(answer.Ok?));
    }
    hide Answered;
    ReleaseKeeps(TakeAnswer(p, w, id, answer), a[id := answer], w);
  }

  lemma SameMessage(p: Pool, a: map<nat, Answer>, w: nat, id: nat, m: Sent)
    requires Core(p, a, {}, None) && m in p.sent && m.id == id && m.worker == w
    ensures id < p.nextId
    ensures w !in p.workers ==> w !in p.busy && forall v :: v in p.busy ==> p.busy[v].id != id
    ensures w in p.workers && id !in a ==> w in p.busy && p.busy[w].id == id
  {
    hide JobsApart, JobsAll, AttemptsOk, VerdictsOk;
    forall v | v in p.busy && p.busy[v].id == id
      ensures v == w && v in p.workers
    {
      var n := Sent(id, v, p.busy[v].job.id);
      var i :| 0 <= i < |p.sent| && p.sent[i] == m;
      var j :| 0 <= j < |p.sent| && p.sent[j] == n;
    }
  }

  /** Any answer to a posted message, from a working or a retired worker. */
  lemma AnswerKeeps(p: Pool, a: map<nat, Answer>, w: nat, id: nat, answer: Answer, m: Sent)
    requires Core(p, a, {}, None) && Shape(p) && id !in a
    requires m in p.sent && m.id == id && m.worker == w
    ensures Core(Reply(p, w, id, answer), a[id := answer], {}, None) && Shape(Reply(p, w, id, answer))
  {
    SameMessage(p, a, w, id, m);
    hide Core, Shape;
    if w in p.workers {
      ReplyKeeps(p, a, w, answer);
    } else {
      LateAnswer(p, a, id, answer);
    }
  }

  // ---- Deaths ----

  lemma BackfillKeeps(p: Pool, a: map<nat, Answer>)
    requires Core(p, a, {}, None) && p.started && p.size >= 1 && |p.workers| >= p.size - 1
    requires p.idle != [] ==> |p.queue| <= 1 && |p.workers| < p.size
    ensures Core(Backfill(p), a, {}, None) && Shape(Backfill(p))
  {
    if |p.workers| < p.size {
      hide Core;
      SpawnKeeps(p, a, None);
      ReleaseKeeps(Spawn(p), a, p.nextWorker);
    }
  }

  lemma AbsentDies(p: Pool, a: map<nat, Answer>, w: nat)
    requires Core(p, a, {}, None) && w !in p.workers
    ensures Abandon(p, w) == p
  {
    hide JobsApart, JobsAll, AttemptsOk, MessagesOk, VerdictsOk;
    assert w !in p.idle && w !in p.busy;
    RemoveAbsent(p.workers, w);
    RemoveAbsent(p.idle, w);
    assert p.busy - {w} == p.busy;
    hide RemoveFirst;
  }

  lemma WorkerIsIdleOrBusy(p: Pool, a: map<nat, Answer>, w: nat)
    requires Core(p, a, {}, None) && w in p.workers
    ensures w in p.idle <==> w !in p.busy
  {
    hide JobsApart, JobsAll, AttemptsOk, MessagesOk, VerdictsOk;
  }

  lemma FailKeeps(p: Pool, a: map<nat, Answer>, w: nat)
    requires Core(p, a, {}, None) && Shape(p)
    ensures Core(Fail(p, w), a, {}, None) && Shape(Fail(p, w))
  {
    if w !in p.workers {
      AbsentDies(p, a, w);
    } else {
      WorkerIsIdleOrBusy(p, a, w);
      hide Core, Backfill, RemoveFirst;
      if w in p.busy {
        BusyDies(p, a, w);
        RetryOrFailKeeps(Retire(p.(busy := p.busy - {w}), w), a, {}, p.busy[w].job);
      } else {
        IdleDies(p, a, w);
        assert p.busy - {w} == p.busy;
      }
      BackfillKeeps(Abandon(p, w), a);
    }
  }

  // ---- Submissions ----

  lemma {:induction false} StartKeeps(p: Pool, a: map<nat, Answer>, n: nat)
    requires Core(p, a, {}, None)
    ensures var q := StartWorkers(p, n);
      && Core(q, a, {}, None) && |q.workers| == |p.workers| + n
      && q.queue == p.queue && q.size == p.size && q.started == p.started
    decreases n
  {
    hide Core;
    if n > 0 {
      StartKeeps(p, a, n - 1);
      var q := StartWorkers(p, n - 1);
      SpawnKeeps(q, a, None);
      ParkKeeps(Spawn(q), a, q.nextWorker, None);
    }
  }

  lemma EnsureStartedKeeps(p: Pool, a: map<nat, Answer>)
    requires Core(p, a, {}, None) && Shape(p)
    ensures var q := EnsureStarted(p); Core(q, a, {}, None) && Shape(q) && q.started
  {
    if !p.started {
      StartKeeps(p.(started := true), a, p.size);
    }
    hide Core, StartWorkers;
  }

  lemma IdleDistinct(p: Pool, a: map<nat, Answer>, hand: Option<Job>)
    requires Core(p, a, {}, hand)
    ensures Distinct(p.idle)
  {
  }

  lemma SubmitToIdle(q: Pool, a: map<nat, Answer>, job: Job)
    requires Core(q, a, {}, Some(job)) && Shape(q) && q.idle != [] && job.attempts < MAX_ATTEMPTS
    ensures var n := |q.idle| - 1;
      var r := Dispatch(q.(idle := q.idle[..n]), q.idle[n], job);
      Core(r, a, {}, None) && Shape(r)
  {
    IdleDistinct(q, a, Some(job));
    hide Core, Distinct;
    var n := |q.idle| - 1;
    PopIdle(q.idle);
    UnparkKeeps(q, a, q.idle[n], q.idle[..n], Some(job));
    DispatchKeeps(q.(idle := q.idle[..n]), a, q.idle[n], job);
  }

  lemma VerifyKeeps(p: Pool, a: map<nat, Answer>)
    requires Core(p, a, {}, None) && Shape(p)
    ensures Core(Verify(p), a, {}, None) && Shape(Verify(p))
  {
    hide Core, EnsureStarted, Dispatch;
    EnsureStartedKeeps(p, a);
    var q := EnsureStarted(p);
    var job, q1 := Job(q.nextJob, 0), q.(nextJob := q.nextJob + 1);
    AcceptKeeps(q, a, {});
    if q1.idle != [] {
      SubmitToIdle(q1, a, job);
    } else {
      EnqueueKeeps(q1, a, {}, job);
    }
  }

  // ---- Resizes ----

  ghost predicate Calm(p: Pool) {
    p.started && p.size >= 1 && (p.idle != [] ==> p.queue == [])
  }

  lemma GrowStep(p: Pool, a: map<nat, Answer>)
    requires Core(p, a, {}, None) && Calm(p) && |p.workers| < p.size
    ensures var q := SpawnAndRelease(p);
      Core(q, a, {}, None) && Calm(q) && |q.workers| == |p.workers| + 1 && q.size == p.size
  {
    var s := Spawn(p);
    SpawnKeeps(p, a, None);
    LooseIsWorker(s, a, p.nextWorker, None);
    hide Core;
    if s.queue != [] {
      HeadCanBeTried(s, a, {p.nextWorker}, None);
      DequeueKeeps(s, a, {p.nextWorker});
      DispatchKeeps(s.(queue := s.queue[1..]), a, p.nextWorker, s.queue[0]);
    } else {
      ParkKeeps(s, a, p.nextWorker, None);
    }
  }

  lemma {:induction false} GrowKeeps(p: Pool, a: map<nat, Answer>)
    requires Core(p, a, {}, None) && Calm(p)
    ensures var q := Grow(p); Core(q, a, {}, None) && Calm(q) && |q.workers| >= q.size && q.size == p.size
    decreases p.size - |p.workers|
  {
    hide Core, Calm;
    if |p.workers| < p.size {
      GrowStep(p, a);
      GrowKeeps(SpawnAndRelease(p), a);
    }
  }

  lemma ShrinkStep(p: Pool, a: map<nat, Answer>)
    requires Core(p, a, {}, None) && Calm(p) && |p.workers| > p.size && p.idle != []
    ensures var q := Retire(p.(idle := p.idle[..|p.idle| - 1]), p.idle[|p.idle| - 1]);
      Core(q, a, {}, None) && Calm(q) && |q.workers| == |p.workers| - 1 && q.size == p.size && |q.idle| < |p.idle|
  {
    IdleDistinct(p, a, None);
    hide Core, RemoveFirst;
    var n := |p.idle| - 1;
    PopIdle(p.idle);
    hide Distinct;
    UnparkKeeps(p, a, p.idle[n], p.idle[..n], None);
    RetireKeeps(p.(idle := p.idle[..n]), a, p.idle[n], None);
  }

  lemma {:induction false} ShrinkKeeps(p: Pool, a: map<nat, Answer>)
    requires Core(p, a, {}, None) && Calm(p) && |p.workers| >= p.size
    ensures Core(Shrink(p), a, {}, None) && Shape(Shrink(p))
    decreases |p.idle|
  {
    hide Core, Retire;
    if |p.workers| > p.size && p.idle != [] {
      ShrinkStep(p, a);
      hide Calm;
      ShrinkKeeps(Retire(p.(idle := p.idle[..|p.idle| - 1]), p.idle[|p.idle| - 1]), a);
    }
  }

  lemma SetSizeKeeps(p: Pool, a: map<nat, Answer>, size: nat)
    requires Core(p, a, {}, None) && Shape(p) && size >= 1
    ensures Core(SetSize(p, size), a, {}, None) && Shape(SetSize(p, size))
  {
    var q := p.(size := size);
    assert Core(q, a, {}, None);
    hide Core, Grow, Shrink;
    if q.started {
      GrowKeeps(q, a);
      ShrinkKeeps(Grow(q), a);
    } else {
      assert |q.workers| == 0;
    }
  }

  lemma ClampedIsPositive(n: Option<int>, hardware: nat)
    requires hardware >= 1
    ensures 1 <= ClampCores(n, hardware) <= hardware
    ensures n.Some? && 1 <= n.value <= hardware ==> ClampCores(n, hardware) == n.value
    ensures n.Some? && n.value > hardware ==> ClampCores(n, hardware) == hardware
    ensures n.None? ==> ClampCores(n, hardware) == if hardware < 4 then hardware else 4
  {
  }

  // ---- Runs ----

  /** Anything that can happen to the pool. `Timeout` covers stalls, crashes and errors of any worker, live or not. */
  datatype Event =
    | Submit
    | Answers(worker: nat, id: nat, answer: Answer)
    | Timeout(worker: nat)
    | Resize(size: nat)

  /** The pool and, per message, what was answered. */
  datatype World = World(pool: Pool, answers: map<nat, Answer>)

  function Step(x: World, e: Event): World {
    match e
    case Submit => x.(pool := Verify(x.pool))
    case Answers(w, id, answer) => World(Reply(x.pool, w, id, answer), x.answers[id := answer])
    case Timeout(w) => x.(pool := Fail(x.pool, w))
    case Resize(size) => x.(pool := SetSize(x.pool, size))
  }

  /** A worker answers each message it was sent at most once; sizes are clamped to at least one. */
  ghost predicate Possible(x: World, e: Event) {
    match e
    case Answers(w, id, _) => id !in x.answers && exists m :: m in x.pool.sent && m.id == id && m.worker == w
    case Resize(size) => size >= 1
    case _ => true
  }

  function Run(size: nat, events: seq<Event>): World {
    if events == [] then World(Create(size), map[])
    else Step(Run(size, events[..|events| - 1]), events[|events| - 1])
  }

  ghost predicate PossibleRun(size: nat, events: seq<Event>) {
    size >= 1 && forall n :: 0 <= n < |events| ==> Possible(Run(size, events[..n]), events[n])
  }

  ghost predicate Safe(x: World) {
    Core(x.pool, x.answers, {}, None) && Shape(x.pool)
  }

  lemma CreateSafe(size: nat)
    requires size >= 1
    ensures Safe(World(Create(size), map[]))
  {
    var p := Create(size);
    forall j: nat
      ensures !Holds(p.queue, p.busy, p.settled, None, j)
    {
    }
    hide Holds;
  }

  lemma StepSafe(x: World, e: Event)
    requires Safe(x) && Possible(x, e)
    ensures Safe(Step(x, e))
  {
    hide Core, Shape, Verify, Reply, Fail, SetSize;
    match e {
      case Submit => VerifyKeeps(x.pool, x.answers);
      case Answers(w, id, answer) =>
        var m :| m in x.pool.sent && m.id == id && m.worker == w;
        AnswerKeeps(x.pool, x.answers, w, id, answer, m);
      case Timeout(w) => FailKeeps(x.pool, x.answers, w);
      case Resize(size) => SetSizeKeeps(x.pool, x.answers, size);
    }
  }

  lemma {:induction false} RunSafe(size: nat, events: seq<Event>)
    requires PossibleRun(size, events)
    ensures Safe(Run(size, events))
    decreases |events|
  {
    if events == [] {
      CreateSafe(size);
    } else {
      var front := events[..|events| - 1];
      assert PossibleRun(size, front) by {
        hide Possible, Run;
        forall n | 0 <= n < |front|
          ensures Possible(Run(size, front[..n]), front[n])
        {
          assert front[..n] == events[..n];
        }
      }
      hide Safe, Possible;
      RunSafe(size, front);
      StepSafe(Run(size, front), events[|events| - 1]);
    }
  }

  // ---- What safety means ----

  ghost predicate Queued(p: Pool, j: nat) {
    exists i :: 0 <= i < |p.queue| && p.queue[i].id == j
  }

  ghost predicate Flying(p: Pool, j: nat) {
    exists w :: w in p.busy && p.busy[w].job.id == j
  }

  ghost predicate Done(p: Pool, j: nat) {
    exists i :: 0 <= i < |p.settled| && p.settled[i].job.id == j
  }

  /** After any run every submitted job is in exactly one of the queue, one worker's hands, or the settled list, once. */
  lemma EveryJobInOnePlace(size: nat, events: seq<Event>, j: nat)
    requires PossibleRun(size, events)
    ensures var p := Run(size, events).pool;
      && (j < p.nextJob <==> Queued(p, j) || Flying(p, j) || Done(p, j))
      && !(Queued(p, j) && Flying(p, j)) && !(Queued(p, j) && Done(p, j)) && !(Flying(p, j) && Done(p, j))
      && (forall i, k :: 0 <= i < k < |p.queue| ==> p.queue[i].id != p.queue[k].id)
      && (forall v, w :: v in p.busy && w in p.busy && v != w ==> p.busy[v].job.id != p.busy[w].job.id)
      && (forall i, k :: 0 <= i < k < |p.settled| ==> p.settled[i].job.id != p.settled[k].job.id)
  {
    RunSafe(size, events);
    hide Run, Shape, WorkersOk, AttemptsOk, MessagesOk, VerdictsOk;
    var p := Run(size, events).pool;
    assert Holds(p.queue, p.busy, p.settled, None, j) <==> j < p.nextJob;
    hide JobsAll;
  }

  /** No job is posted to workers more than three times, in any run. */
  lemma AtMostThreePosts(size: nat, events: seq<Event>, j: nat)
    requires PossibleRun(size, events)
    ensures Posted(Run(size, events).pool.sent, j) <= MAX_ATTEMPTS
  {
    RunSafe(size, events);
    hide Run, Shape, WorkersOk, MessagesOk, VerdictsOk, JobsApart, Posted;
    var p := Run(size, events).pool;
    if j < p.nextJob {
      assert Holds(p.queue, p.busy, p.settled, None, j);
    }
  }

  /** A settled promise is a worker's answer about that very block, or `false` after exactly three posts. */
  lemma SettledForAReason(size: nat, events: seq<Event>, i: nat)
    requires PossibleRun(size, events) && i < |Run(size, events).pool.settled|
    ensures var x := Run(size, events);
      var d := x.pool.settled[i];
      match d.outcome
      case Verdict(ok) => Answered(x.pool.sent, x.answers, d.job.id, ok)
      case GaveUp => Posted(x.pool.sent, d.job.id) == MAX_ATTEMPTS
  {
    RunSafe(size, events);
    hide Run, Shape, WorkersOk, MessagesOk, JobsApart, JobsAll, Posted, Answered;
    var p := Run(size, events).pool;
    assert TriedOk(p.settled[i].job, p.sent);
  }

  /** Waiting work means no worker is idle and at least one is at work. */
  lemma WaitingMeansBusy(size: nat, events: seq<Event>)
    requires PossibleRun(size, events) && Run(size, events).pool.queue != []
    ensures var p := Run(size, events).pool;
      p.idle == [] && exists w :: w in p.busy && w in p.workers
  {
    RunSafe(size, events);
    hide Run, JobsApart, JobsAll, AttemptsOk, MessagesOk, VerdictsOk;
    var p := Run(size, events).pool;
    assert p.workers[0] in p.busy;
  }

  /** After any run the workers are the idle and the busy ones, once each, at least as many as asked for. */
  lemma WorkersAccountedFor(size: nat, events: seq<Event>)
    requires PossibleRun(size, events)
    ensures var p := Run(size, events).pool;
      && (forall i, j :: 0 <= i < j < |p.workers| ==> p.workers[i] != p.workers[j])
      && (forall w :: w in p.workers <==> w in p.idle || w in p.busy)
      && (forall w :: w in p.idle ==> w !in p.busy)
      && (p.started ==> |p.workers| >= p.size >= 1)
      && (|p.workers| > p.size ==> p.idle == [])
  {
    RunSafe(size, events);
    hide Run, JobsApart, JobsAll, AttemptsOk, MessagesOk, VerdictsOk;
  }

  // ---- Why answers must be the ones owed ----

  lemma LostJob(p: Pool, a: map<nat, Answer>, w: nat, b: map<nat, Answer>)
    requires Core(p, a, {}, None) && w in p.busy && p.queue != []
    ensures !Core(Release(p, w), b, {}, None)
  {
    BusyIsWorker(p, a, w);
    hide WorkersOk, AttemptsOk, MessagesOk, VerdictsOk;
    var j := p.busy[w].job.id;
    assert Holds(p.queue, p.busy, p.settled, None, j);
    var q := Release(p, w);
    assert forall i :: 0 <= i < |q.queue| ==> q.queue[i] == p.queue[i + 1];
    assert forall v :: v in q.busy && v != w ==> q.busy[v] == p.busy[v];
    assert !Holds(q.queue, q.busy, q.settled, None, j);
  }

  lemma TwiceInPool(p: Pool, a: map<nat, Answer>, w: nat, b: map<nat, Answer>)
    requires Core(p, a, {}, None) && Shape(p) && w in p.workers && p.queue == []
    ensures !Core(Release(p, w), b, {}, None)
  {
    hide JobsApart, JobsAll, AttemptsOk, MessagesOk, VerdictsOk;
    if |p.workers| > p.size {
      RemoveDistinct(p.workers, w);
      assert w in p.busy;
      hide RemoveFirst, Distinct;
    } else if w in p.idle {
      var i :| 0 <= i < |p.idle| && p.idle[i] == w;
      assert (p.idle + [w])[i] == (p.idle + [w])[|p.idle|];
    } else {
      assert w in p.busy && w in p.idle + [w];
    }
  }

  /**
   * A message from a working worker keeps the pool sound exactly when it answers the job that worker is
   * busy with: any other would lose a job or put the worker in two places.
   */
  lemma AnswerIsSafeIffOwed(p: Pool, a: map<nat, Answer>, w: nat, id: nat, answer: Answer)
    requires Core(p, a, {}, None) && Shape(p) && w in p.workers
    ensures (exists b :: Core(Reply(p, w, id, answer), b, {}, None)) <==> (w in p.busy && p.busy[w].id == id)
  {
    hide Core, Shape;
    if w in p.busy && p.busy[w].id == id {
      ReplyKeeps(p, a, w, answer);
    } else {
      WorkerIsIdleOrBusy(p, a, w);
      forall b
        ensures !Core(Reply(p, w, id, answer), b, {}, None)
      {
        if p.queue == [] {
          TwiceInPool(p, a, w, b);
        } else {
          IdleMeansNoQueue(p, w);
          LostJob(p, a, w, b);
        }
      }
    }
  }

  lemma IdleMeansNoQueue(p: Pool, w: nat)
    requires Shape(p) && p.queue != []
    ensures w !in p.idle
  {
  }

  // ---- A duplicate answer ----

  function OneWorker(): seq<Event> {
    [Submit, Submit, Answers(0, 1, Ok)]
  }

  /** One worker, two jobs, one answer: the worker is on the second job. */
  lemma OneWorkerRun()
    ensures Run(1, OneWorker()).answers == map[1 := Ok]
    ensures var p := Run(1, OneWorker()).pool;
      && p.workers == [0] && p.idle == [] && p.queue == [] && p.busy == map[0 := InFlight(2, Job(1, 1))] && p.size == 1
    ensures PossibleRun(1, OneWorker())
  {
    var events := OneWorker();
    assert events[..2] == [Submit, Submit] && [Submit, Submit][..1] == [Submit] && [Submit][..0] == [];
    FirstSubmit();
    SecondSubmit();
    FirstAnswer();
    hide Verify, Reply, Create;
    assert Run(1, [Submit]) == Step(Run(1, []), Submit) == World(AfterFirst(), map[]);
    assert Run(1, [Submit, Submit]) == Step(Run(1, [Submit]), Submit) == World(AfterSecond(), map[]);
    assert Run(1, events) == Step(Run(1, [Submit, Submit]), Answers(0, 1, Ok));
    hide Run;
    forall n | 0 <= n < |events|
      ensures Possible(Run(1, events[..n]), events[n])
    {
      if n == 2 {
        assert Sent(1, 0, 0) in AfterSecond().sent;
      }
    }
  }

  function AfterFirst(): Pool {
    Pool([0], [], [], map[0 := InFlight(1, Job(0, 1))], 2, 1, true, 1, 1, [Sent(1, 0, 0)], [])
  }

  function AfterSecond(): Pool {
    AfterFirst().(queue := [Job(1, 0)], nextJob := 2)
  }

  lemma SecondSubmit()
    ensures Verify(AfterFirst()) == AfterSecond()
  {
    hide StartWorkers;
    assert AfterFirst().queue + [Job(1, 0)] == [Job(1, 0)];
  }

  lemma FirstAnswer()
    ensures var p := Reply(AfterSecond(), 0, 1, Ok);
      p.workers == [0] && p.idle == [] && p.queue == [] && p.busy == map[0 := InFlight(2, Job(1, 1))] && p.size == 1
  {
    var q := TakeAnswer(AfterSecond(), 0, 1, Ok);
    assert q == AfterSecond().(busy := map[], settled := [Settled(Job(0, 1), Verdict(true))]);
    hide TakeAnswer;
    assert q.queue[1..] == [];
  }

  lemma FirstSubmit()
    ensures Verify(Create(1)) == AfterFirst()
  {
    var p := Create(1).(started := true);
    assert StartWorkers(p, 0) == p;
    assert StartWorkers(p, 1) == p.(workers := [0], idle := [0], nextWorker := 1);
    var none: seq<nat> := [];
    assert [0][..0] == none;
  }

  /**
   * After a run that can happen, the worker sending its first answer a second time is parked while it works,
   * and no account of the answers makes the pool sound again.
   */
  lemma DuplicateAnswerBreaks()
    ensures PossibleRun(1, OneWorker())
    ensures var q := Reply(Run(1, OneWorker()).pool, 0, 1, Ok);
      && 0 in q.idle && 0 in q.busy
      && forall b :: !Core(q, b, {}, None)
  {
    OneWorkerRun();
    RunSafe(1, OneWorker());
    var x := Run(1, OneWorker());
    hide Run, Core, Shape, PossibleRun;
    AnswerIsSafeIffOwed(x.pool, x.answers, 0, 1, Ok);
  }
}
