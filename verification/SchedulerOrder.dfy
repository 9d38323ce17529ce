/** What each event does to the jobs, and the order in which jobs reach the workers (src/chain/verifierPool.ts). */
module SchedulerOrder {
  import opened Genesis
  import opened Scheduler
  import opened SchedulerLaws
  import opened SchedulerRuns

  // ---- One event ----

  /**
   * The answer a busy worker owes: a verdict settles its job at once, a failure to verify puts the job back in
   * line or, at the third post, gives it up. The freed worker takes the oldest waiting job if there is one.
   */
  lemma AnswerEffect(p: Pool, w: nat, answer: Answer)
    requires w in p.busy && w in p.workers
    ensures var q, job := Reply(p, w, p.busy[w].id, answer), p.busy[w].job;
      var line := if answer.Err? && job.attempts < 3 then p.queue + [job] else p.queue;
      && q.settled == p.settled + (if answer.Ok? then [Settled(job, Verdict(true))]
                                   else if answer.NotOk? then [Settled(job, Verdict(false))]
                                   else if job.attempts < 3 then [] else [Settled(job, GaveUp)])
      && (line != [] ==>
            && q.queue == line[1..] && w in q.busy && q.busy[w].job == Job(line[0].id, line[0].attempts + 1)
            && q.sent == p.sent + [Sent(p.nextId, w, line[0].id)] && q.workers == p.workers && q.idle == p.idle)
      && (line == [] ==> q.queue == [] && w !in q.busy && q.sent == p.sent && (w in q.idle || |p.workers| > p.size))
      && forall v :: v in p.busy && v != w ==> v in q.busy && q.busy[v] == p.busy[v]
  {
    hide RemoveFirst;
  }

  /** A submission is numbered, and goes to the worker parked last if one is idle, else to the end of the line. */
  lemma SubmitEffect(p: Pool)
    requires p.started
    ensures var q := Verify(p);
      && q.nextJob == p.nextJob + 1 && q.settled == p.settled
      && (p.idle == [] ==> q.queue == p.queue + [Job(p.nextJob, 0)] && q.busy == p.busy && q.sent == p.sent)
      && (p.idle != [] ==>
            var w := p.idle[|p.idle| - 1];
            && q.queue == p.queue && q.busy == p.busy[w := InFlight(p.nextId, Job(p.nextJob, 1))]
            && q.idle == p.idle[..|p.idle| - 1] && q.sent == p.sent + [Sent(p.nextId, w, p.nextJob)])
  {
  }

  /**
   * A busy worker dies: it is gone, its job is back in line or given up at the third post, and a replacement,
   * if the pool is now short, takes the oldest waiting job.
   */
  lemma FailEffect(p: Pool, a: map<nat, Answer>, w: nat)
    requires Core(p, a, {}, None) && w in p.busy && p.started
    ensures var q, job, next := Fail(p, w), p.busy[w].job, p.nextWorker;
      var line := if job.attempts < 3 then p.queue + [job] else p.queue;
      && w !in q.workers && w !in q.busy && w !in q.idle
      && q.settled == p.settled + (if job.attempts < 3 then [] else [Settled(job, GaveUp)])
      && (forall v :: v in p.busy && v != w ==> v in q.busy && q.busy[v] == p.busy[v])
      && (|p.workers| > p.size ==> q.queue == line && q.sent == p.sent)
      && (|p.workers| <= p.size ==>
            && next in q.workers
            && (line != [] ==> q.queue == line[1..] && next in q.busy && q.busy[next].job.id == line[0].id)
            && (line == [] ==> next in q.idle && q.queue == []))
  {
    BusyIsWorker(p, a, w);
    AbandonEffect(p, a, w);
    WorkersDistinct(p, a);
    hide Core, Abandon, Distinct, RemoveFirst;
  }

  lemma AbandonEffect(p: Pool, a: map<nat, Answer>, w: nat)
    requires Core(p, a, {}, None) && w in p.busy && w in p.workers
    ensures var q, job := Abandon(p, w), p.busy[w].job;
      && w !in q.workers && w !in q.idle && q.busy == p.busy - {w} && |q.workers| == |p.workers| - 1
      && q.queue == (if job.attempts < 3 then p.queue + [job] else p.queue)
      && q.settled == p.settled + (if job.attempts < 3 then [] else [Settled(job, GaveUp)])
      && q.sent == p.sent && q.size == p.size && q.started == p.started && q.nextWorker == p.nextWorker && q.nextId == p.nextId
  {
    WorkersDistinct(p, a);
    hide Core;
    RemoveDistinct(p.workers, w);
    RemoveDistinct(p.idle, w);
    hide RemoveFirst, Distinct;
  }

  lemma WorkersDistinct(p: Pool, a: map<nat, Answer>)
    requires Core(p, a, {}, None)
    ensures Distinct(p.workers) && Distinct(p.idle) && forall v :: v in p.workers || v in p.busy ==> v < p.nextWorker
  {
    hide JobsApart, JobsAll, AttemptsOk, MessagesOk, VerdictsOk;
  }

  lemma {:induction false} ShrinkLeaves(p: Pool)
    ensures Shrink(p).busy == p.busy && Shrink(p).queue == p.queue && Shrink(p).sent == p.sent && Shrink(p).nextJob == p.nextJob
    ensures Shrink(p).settled == p.settled
    decreases |p.idle|
  {
    if |p.workers| > p.size && p.idle != [] {
      ShrinkLeaves(Retire(p.(idle := p.idle[..|p.idle| - 1]), p.idle[|p.idle| - 1]));
    }
  }

  lemma {:induction false} GrowLeaves(p: Pool)
    requires forall v :: v in p.busy ==> v < p.nextWorker
    ensures forall v :: v in p.busy ==> v in Grow(p).busy && Grow(p).busy[v] == p.busy[v]
    ensures Grow(p).settled == p.settled
    decreases p.size - |p.workers|
  {
    if |p.workers| < p.size {
      GrowLeaves(SpawnAndRelease(p));
    }
  }

  /** Resizing never takes a job from a working worker, and settles nothing. */
  lemma ResizeEffect(p: Pool, a: map<nat, Answer>, size: nat)
    requires Core(p, a, {}, None)
    ensures var q := SetSize(p, size);
      q.settled == p.settled && forall v :: v in p.busy ==> v in q.busy && q.busy[v] == p.busy[v]
  {
    forall v | v in p.busy
      ensures v < p.nextWorker
    {
      BusyIsWorker(p, a, v);
    }
    hide Core, Shrink, Grow;
    GrowLeaves(p.(size := size));
    ShrinkLeaves(Grow(p.(size := size)));
  }

  // ---- First come, first served ----

  ghost predicate Mentioned(sent: seq<Sent>, j: nat) {
    exists k :: 0 <= k < |sent| && sent[k].job == j
  }

  /** The first message about a job comes after those about all earlier jobs that were posted before it. */
  ghost predicate FirstsAscend(sent: seq<Sent>) {
    forall i, k :: 0 <= i < k < |sent| && !Mentioned(sent[..k], sent[k].job) ==> sent[i].job < sent[k].job
  }

  /** Jobs never tried wait in order of submission, behind everything posted. */
  ghost predicate LineOk(queue: seq<Job>, sent: seq<Sent>, nextJob: nat) {
    && (forall i, k :: 0 <= i < k < |queue| && queue[i].attempts == 0 && queue[k].attempts == 0 ==> queue[i].id < queue[k].id)
    && (forall i, k :: 0 <= i < |queue| && queue[i].attempts == 0 && 0 <= k < |sent| ==> sent[k].job < queue[i].id)
    && (forall i :: 0 <= i < |queue| ==> queue[i].id < nextJob && (queue[i].attempts > 0 ==> Mentioned(sent, queue[i].id)))
  }

  ghost predicate BusyPosted(busy: map<nat, InFlight>, sent: seq<Sent>) {
    forall w :: w in busy ==> busy[w].job.attempts > 0 && Mentioned(sent, busy[w].job.id)
  }

  ghost predicate Orderly(p: Pool) {
    && LineOk(p.queue, p.sent, p.nextJob) && BusyPosted(p.busy, p.sent) && FirstsAscend(p.sent)
    && forall k :: 0 <= k < |p.sent| ==> p.sent[k].job < p.nextJob
  }

  lemma MentionedMore(sent: seq<Sent>, m: Sent)
    ensures Mentioned(sent + [m], m.job)
    ensures forall j :: Mentioned(sent, j) ==> Mentioned(sent + [m], j)
  {
    assert (sent + [m])[|sent|].job == m.job;
    forall j | Mentioned(sent, j)
      ensures Mentioned(sent + [m], j)
    {
      var k :| 0 <= k < |sent| && sent[k].job == j;
      assert (sent + [m])[k].job == j;
    }
  }

  lemma FirstsMore(sent: seq<Sent>, m: Sent)
    requires FirstsAscend(sent)
    requires Mentioned(sent, m.job) || forall k :: 0 <= k < |sent| ==> sent[k].job < m.job
    ensures FirstsAscend(sent + [m])
  {
    hide Mentioned;
    var more := sent + [m];
    forall i, k | 0 <= i < k < |more| && !Mentioned(more[..k], more[k].job)
      ensures more[i].job < more[k].job
    {
      assert more[..k] == sent[..k];
      assert sent[..|sent|] == sent;
    }
  }

  lemma LineWithoutHead(queue: seq<Job>, sent: seq<Sent>, m: Sent, nextJob: nat)
    requires LineOk(queue, sent, nextJob) && queue != [] && m.job == queue[0].id
    ensures LineOk(queue[1..], sent + [m], nextJob)
  {
    var rest, more := queue[1..], sent + [m];
    assert forall i :: 0 <= i < |rest| ==> rest[i] == queue[i + 1];
    MentionedMore(sent, m);
    hide Mentioned;
    forall i, k | 0 <= i < |rest| && rest[i].attempts == 0 && 0 <= k < |more|
      ensures more[k].job < rest[i].id
    {
      if k == |sent| && queue[0].attempts > 0 {
        PostedBefore(sent, queue[0].id, rest[i].id);
      }
    }
  }

  lemma HeadFits(queue: seq<Job>, sent: seq<Sent>, nextJob: nat)
    requires LineOk(queue, sent, nextJob) && queue != []
    ensures queue[0].id < nextJob && (Mentioned(sent, queue[0].id) || forall k :: 0 <= k < |sent| ==> sent[k].job < queue[0].id)
  {
    hide Mentioned;
  }

  lemma HeadOrderly(p: Pool, w: nat)
    requires Orderly(p) && p.queue != []
    ensures Orderly(Dispatch(p.(queue := p.queue[1..]), w, p.queue[0]))
  {
    hide Mentioned, FirstsAscend, LineOk;
    var m := Sent(p.nextId, w, p.queue[0].id);
    HeadFits(p.queue, p.sent, p.nextJob);
    MentionedMore(p.sent, m);
    FirstsMore(p.sent, m);
    LineWithoutHead(p.queue, p.sent, m, p.nextJob);
  }

  lemma PostedBefore(sent: seq<Sent>, j: nat, id: nat)
    requires Mentioned(sent, j) && forall k :: 0 <= k < |sent| ==> sent[k].job < id
    ensures j < id
  {
  }

  lemma NewOrderly(p: Pool, w: nat)
    requires Orderly(p) && p.queue == []
    ensures Orderly(Dispatch(p.(nextJob := p.nextJob + 1), w, Job(p.nextJob, 0)))
  {
    var m := Sent(p.nextId, w, p.nextJob);
    MentionedMore(p.sent, m);
    FirstsMore(p.sent, m);
    hide Mentioned, FirstsAscend;
  }

  lemma EnqueueOrderly(p: Pool)
    requires Orderly(p)
    ensures Orderly(p.(nextJob := p.nextJob + 1, queue := p.queue + [Job(p.nextJob, 0)]))
  {
    hide Mentioned, FirstsAscend;
  }

  lemma RetryOrderly(p: Pool, job: Job)
    requires Orderly(p) && job.attempts > 0 && Mentioned(p.sent, job.id)
    ensures Orderly(RetryOrFail(p, job))
  {
    PostedBefore(p.sent, job.id, p.nextJob);
    hide Mentioned, FirstsAscend;
  }

  lemma ReleaseOrderly(p: Pool, w: nat)
    requires Orderly(p)
    ensures Orderly(Release(p, w))
  {
    if w in p.workers && p.queue != [] {
      HeadOrderly(p, w);
    }
    hide LineOk, FirstsAscend, Mentioned, RemoveFirst;
  }

  lemma LessBusy(p: Pool, w: nat)
    requires Orderly(p)
    ensures Orderly(p.(busy := p.busy - {w}))
  {
    hide LineOk, FirstsAscend, Mentioned;
  }

  lemma ReplyOrderly(p: Pool, w: nat, id: nat, answer: Answer)
    requires Orderly(p)
    ensures Orderly(Reply(p, w, id, answer))
  {
    LessBusy(p, w);
    if w in p.busy && p.busy[w].id == id && answer.Err? {
      RetryOrderly(p.(busy := p.busy - {w}), p.busy[w].job);
    }
    hide LineOk, FirstsAscend, Mentioned, BusyPosted, RetryOrFail;
    assert Orderly(TakeAnswer(p, w, id, answer));
    ReleaseOrderly(TakeAnswer(p, w, id, answer), w);
  }

  lemma FailOrderly(p: Pool, w: nat)
    requires Orderly(p)
    ensures Orderly(Fail(p, w))
  {
    LessBusy(p, w);
    var q := Retire(p.(busy := p.busy - {w}), w);
    if w in p.busy {
      RetryOrderly(q, p.busy[w].job);
    }
    hide LineOk, FirstsAscend, Mentioned, BusyPosted, RetryOrFail, RemoveFirst;
    var r := Abandon(p, w);
    ReleaseOrderly(Spawn(r), r.nextWorker);
  }

  lemma {:induction false} GrowOrderly(p: Pool)
    requires Orderly(p)
    ensures Orderly(Grow(p))
    decreases p.size - |p.workers|
  {
    hide LineOk, FirstsAscend, Mentioned, BusyPosted;
    if |p.workers| < p.size {
      ReleaseOrderly(Spawn(p), p.nextWorker);
      GrowOrderly(SpawnAndRelease(p));
    }
  }

  lemma {:induction false} StartLeaves(p: Pool, n: nat)
    ensures var q := StartWorkers(p, n);
      q.queue == p.queue && q.sent == p.sent && q.busy == p.busy && q.nextJob == p.nextJob && q.settled == p.settled
    decreases n
  {
    if n > 0 {
      StartLeaves(p, n - 1);
    }
  }

  lemma StartOrderly(p: Pool)
    requires Orderly(p)
    ensures Orderly(EnsureStarted(p))
  {
    StartLeaves(p.(started := true), p.size);
    hide LineOk, FirstsAscend, Mentioned, BusyPosted, StartWorkers;
  }

  lemma SubmitOrderly(p: Pool, a: map<nat, Answer>)
    requires Orderly(p) && Core(p, a, {}, None) && Shape(p)
    ensures Orderly(Verify(p))
  {
    hide LineOk, FirstsAscend, Mentioned, BusyPosted, Core, EnsureStarted, Dispatch;
    EnsureStartedKeeps(p, a);
    StartOrderly(p);
    var q := EnsureStarted(p);
    if q.idle != [] {
      var q1 := q.(idle := q.idle[..|q.idle| - 1]);
      NewOrderly(q1, q.idle[|q.idle| - 1]);
      assert q1.(nextJob := q1.nextJob + 1) == q.(nextJob := q.nextJob + 1).(idle := q.idle[..|q.idle| - 1]);
    } else {
      EnqueueOrderly(q);
    }
  }

  lemma StepOrderly(x: World, e: Event)
    requires Safe(x) && Orderly(x.pool)
    ensures Orderly(Step(x, e).pool)
  {
    hide LineOk, FirstsAscend, Mentioned, BusyPosted, Core, Shape, Verify, Reply, Fail, Grow, Shrink;
    match e {
      case Submit => SubmitOrderly(x.pool, x.answers);
      case Answers(w, id, answer) => ReplyOrderly(x.pool, w, id, answer);
      case Timeout(w) => FailOrderly(x.pool, w);
      case Resize(size) =>
        GrowOrderly(x.pool.(size := size));
        ShrinkLeaves(Grow(x.pool.(size := size)));
    }
  }

  lemma CreateOrderly(size: nat)
    ensures Orderly(Create(size))
  {
  }

  lemma {:induction false} RunOrderly(size: nat, events: seq<Event>)
    requires PossibleRun(size, events)
    ensures Orderly(Run(size, events).pool)
    decreases |events|
  {
    if events == [] {
      CreateOrderly(size);
    } else {
      var front := events[..|events| - 1];
      assert PossibleRun(size, front) by {
        hide Possible, Run;
        forall n | 0 <= n < |front|
          ensures Possible(Run(size, front[..n]), front[n])
        {
          assert front[..n] == events[..n];
        }
      }
      hide Safe, Possible, Orderly, PossibleRun, Step;
      RunSafe(size, front);
      RunOrderly(size, front);
      StepOrderly(Run(size, front), events[|events| - 1]);
    }
  }

  /**
   * First come, first served, in any run: a job is first handed to a worker only after every earlier job has
   * been, and jobs never tried wait in the order of their submission.
   */
  lemma FirstPostsInOrder(size: nat, events: seq<Event>, k: nat, j: nat)
    requires PossibleRun(size, events) && k < |Run(size, events).pool.sent| && j < Run(size, events).pool.sent[k].job
    ensures var p := Run(size, events).pool;
      && Mentioned(p.sent, j)
      && (!Mentioned(p.sent[..k], p.sent[k].job) ==> Mentioned(p.sent[..k], j))
      && forall i, l :: 0 <= i < l < |p.queue| && p.queue[i].attempts == 0 && p.queue[l].attempts == 0 ==> p.queue[i].id < p.queue[l].id
  {
    RunOrderly(size, events);
    RunSafe(size, events);
    var p := Run(size, events).pool;
    hide Run, PossibleRun;
    AllEarlierPosted(p, Run(size, events).answers, k, j);
  }

  lemma AllEarlierPosted(p: Pool, a: map<nat, Answer>, k: nat, j: nat)
    requires Orderly(p) && Core(p, a, {}, None) && k < |p.sent| && j < p.sent[k].job
    ensures Mentioned(p.sent, j) && (!Mentioned(p.sent[..k], p.sent[k].job) ==> Mentioned(p.sent[..k], j))
  {
    JobIsSomewhere(p, a, j);
    hide Core;
    if Mentioned(p.sent, j) {
      var m := FirstMention(p.sent, j);
      FirstIsBefore(p.sent, m, k);
      assert p.sent[..k][m].job == j;
    }
  }

  lemma FirstIsBefore(sent: seq<Sent>, m: nat, k: nat)
    requires FirstsAscend(sent) && m < |sent| && k < |sent| && !Mentioned(sent[..m], sent[m].job) && sent[m].job < sent[k].job
    ensures m < k
  {
  }

  lemma FirstMention(sent: seq<Sent>, j: nat) returns (m: nat)
    requires Mentioned(sent, j)
    ensures m < |sent| && sent[m].job == j && !Mentioned(sent[..m], j)
  {
    var k :| 0 <= k < |sent| && sent[k].job == j;
    m := 0;
    while sent[m].job != j
      invariant m <= k && forall i :: 0 <= i < m ==> sent[i].job != j
      decreases k - m
    {
      m := m + 1;
    }
  }

  lemma {:induction false} PostedIsMentioned(sent: seq<Sent>, j: nat)
    ensures Posted(sent, j) > 0 ==> Mentioned(sent, j)
  {
    if sent != [] {
      PostedIsMentioned(sent[..|sent| - 1], j);
    }
  }

  /** A job below a posted one is queued after a try, at work, or settled: it was posted in any case. */
  lemma JobIsSomewhere(p: Pool, a: map<nat, Answer>, j: nat)
    requires Orderly(p) && Core(p, a, {}, None) && exists k :: 0 <= k < |p.sent| && j < p.sent[k].job
    ensures Mentioned(p.sent, j)
  {
    PostedIsMentioned(p.sent, j);
    hide WorkersOk, JobsApart, MessagesOk, VerdictsOk, Mentioned, FirstsAscend, Posted;
    var k :| 0 <= k < |p.sent| && j < p.sent[k].job;
    assert Holds(p.queue, p.busy, p.settled, None, j);
  }
}
