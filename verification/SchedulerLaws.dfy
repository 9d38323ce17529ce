/** What every move of a worker or a job keeps. */
module SchedulerLaws {
  import opened Genesis
  import opened Scheduler

  // ---- The invariant, with at most one worker between lists and one job in hand ----

  ghost predicate Distinct(s: seq<nat>) {
    forall i, j :: 0 <= i < j < |s| ==> s[i] != s[j]
  }

  /** Every worker is idle, busy or the loose one, and only one of these. */
  ghost predicate WorkersOk(workers: seq<nat>, idle: seq<nat>, busy: set<nat>, nextWorker: nat, loose: set<nat>) {
    && Distinct(workers) && Distinct(idle)
    && (forall w :: w in workers <==> w in idle || w in busy || w in loose)
    && (forall w :: w in idle ==> w !in busy && w !in loose)
    && (forall w :: w in busy ==> w !in loose)
    && (forall w :: w in workers ==> w < nextWorker)
  }

  ghost predicate Holds(queue: seq<Job>, busy: map<nat, InFlight>, settled: seq<Settled>, hand: Option<Job>, j: nat) {
    || (exists i :: 0 <= i < |queue| && queue[i].id == j)
    || (exists w :: w in busy && busy[w].job.id == j)
    || (exists i :: 0 <= i < |settled| && settled[i].job.id == j)
    || (hand.Some? && hand.value.id == j)
  }

  /** No job is in two places, nor twice in one. */
  ghost predicate JobsApart(queue: seq<Job>, busy: map<nat, InFlight>, settled: seq<Settled>, hand: Option<Job>) {
    && (forall i, j :: 0 <= i < j < |queue| ==> queue[i].id != queue[j].id)
    && (forall i, j :: 0 <= i < j < |settled| ==> settled[i].job.id != settled[j].job.id)
    && (forall v, w :: v in busy && w in busy && v != w ==> busy[v].job.id != busy[w].job.id)
    && (forall i, j :: 0 <= i < |queue| && 0 <= j < |settled| ==> queue[i].id != settled[j].job.id)
    && (forall i, w :: 0 <= i < |queue| && w in busy ==> queue[i].id != busy[w].job.id)
    && (forall i, w :: 0 <= i < |settled| && w in busy ==> settled[i].job.id != busy[w].job.id)
    && (hand.Some? ==>
          && (forall i :: 0 <= i < |queue| ==> queue[i].id != hand.value.id)
          && (forall i :: 0 <= i < |settled| ==> settled[i].job.id != hand.value.id)
          && (forall w :: w in busy ==> busy[w].job.id != hand.value.id))
  }

  /** Exactly the submitted jobs are somewhere. */
  ghost predicate JobsAll(queue: seq<Job>, busy: map<nat, InFlight>, settled: seq<Settled>, hand: Option<Job>, nextJob: nat) {
    forall j: nat :: Holds(queue, busy, settled, hand, j) <==> j < nextJob
  }

  /** How many messages about a job were posted. */
  function Posted(sent: seq<Sent>, j: nat): nat {
    if sent == [] then 0 else Posted(sent[..|sent| - 1], j) + if sent[|sent| - 1].job == j then 1 else 0
  }

  ghost predicate QueuedOk(job: Job, sent: seq<Sent>) {
    job.attempts == Posted(sent, job.id) < MAX_ATTEMPTS
  }

  ghost predicate TriedOk(job: Job, sent: seq<Sent>) {
    1 <= job.attempts == Posted(sent, job.id) <= MAX_ATTEMPTS
  }

  /** A job's counter is the number of messages about it, within the limit; it is given up only at the limit. */
  ghost predicate AttemptsOk(queue: seq<Job>, busy: map<nat, InFlight>, settled: seq<Settled>, hand: Option<Job>,
                             sent: seq<Sent>, nextJob: nat) {
    && (forall i :: 0 <= i < |queue| ==> QueuedOk(queue[i], sent))
    && (forall w :: w in busy ==> TriedOk(busy[w].job, sent))
    && (forall i :: 0 <= i < |settled| ==>
          TriedOk(settled[i].job, sent) && (settled[i].outcome.GaveUp? ==> settled[i].job.attempts == MAX_ATTEMPTS))
    && (hand.Some? ==> QueuedOk(hand.value, sent) || TriedOk(hand.value, sent))
    && (forall j :: j >= nextJob ==> Posted(sent, j) == 0)
  }

  /** An unanswered message to a working worker is the one it is busy with; message ids are never reused. */
  ghost predicate MessagesOk(sent: seq<Sent>, nextId: nat, nextWorker: nat, workers: seq<nat>, busy: map<nat, InFlight>,
                             answers: map<nat, Answer>) {
    && (forall m :: m in sent ==> m.id < nextId && m.worker < nextWorker)
    && (forall i, j :: 0 <= i < j < |sent| ==> sent[i].id != sent[j].id)
    && (forall m :: m in sent && m.worker in workers && m.id !in answers ==>
          m.worker in busy && busy[m.worker].id == m.id)
    && (forall w :: w in busy ==> busy[w].id !in answers && Sent(busy[w].id, w, busy[w].job.id) in sent)
    && (forall id :: id in answers ==> id < nextId)
  }

  /** Some worker gave this verdict in answer to a message about this job. */
  ghost predicate Answered(sent: seq<Sent>, answers: map<nat, Answer>, job: nat, ok: bool) {
    exists m :: m in sent && m.job == job && m.id in answers && answers[m.id] == if ok then Ok else NotOk
  }

  ghost predicate VerdictsOk(settled: seq<Settled>, sent: seq<Sent>, answers: map<nat, Answer>) {
    forall i :: 0 <= i < |settled| && settled[i].outcome.Verdict? ==>
      Answered(sent, answers, settled[i].job.id, settled[i].outcome.ok)
  }

  ghost predicate Core(p: Pool, answers: map<nat, Answer>, loose: set<nat>, hand: Option<Job>) {
    && WorkersOk(p.workers, p.idle, p.busy.Keys, p.nextWorker, loose)
    && JobsApart(p.queue, p.busy, p.settled, hand)
    && JobsAll(p.queue, p.busy, p.settled, hand, p.nextJob)
    && AttemptsOk(p.queue, p.busy, p.settled, hand, p.sent, p.nextJob)
    && MessagesOk(p.sent, p.nextId, p.nextWorker, p.workers, p.busy, answers)
    && VerdictsOk(p.settled, p.sent, answers)
  }

  // ---- Workers ----

  lemma {:induction false} RemoveDistinct(s: seq<nat>, w: nat)
    requires Distinct(s)
    ensures Distinct(RemoveFirst(s, w))
    ensures forall v :: v in RemoveFirst(s, w) <==> v in s && v != w
    ensures |RemoveFirst(s, w)| == |s| - if w in s then 1 else 0
  {
    if s != [] {
      assert s == [s[0]] + s[1..];
      assert Distinct(s[1..]);
      assert s[0] !in s[1..];
      RemoveDistinct(s[1..], w);
      var r := RemoveFirst(s[1..], w);
      assert forall i :: 0 <= i < |r| ==> r[i] in r;
    }
  }

  lemma SpawnWorkers(workers: seq<nat>, idle: seq<nat>, busy: set<nat>, nextWorker: nat)
    requires WorkersOk(workers, idle, busy, nextWorker, {})
    ensures WorkersOk(workers + [nextWorker], idle, busy, nextWorker + 1, {nextWorker})
  {
    var ws := workers + [nextWorker];
    assert nextWorker !in workers;
    forall i, j | 0 <= i < j < |ws|
      ensures ws[i] != ws[j]
    {
      assert ws[i] in workers;
    }
    assert forall w :: w in ws <==> w in workers || w == nextWorker;
  }

  lemma SpawnKeeps(p: Pool, a: map<nat, Answer>, hand: Option<Job>)
    requires Core(p, a, {}, hand)
    ensures Core(Spawn(p), a, {p.nextWorker}, hand)
  {
    SpawnWorkers(p.workers, p.idle, p.busy.Keys, p.nextWorker);
    hide WorkersOk, JobsApart, JobsAll, AttemptsOk, VerdictsOk;
    assert forall w :: w in Spawn(p).workers <==> w in p.workers || w == p.nextWorker;
  }

  lemma ParkKeeps(p: Pool, a: map<nat, Answer>, w: nat, hand: Option<Job>)
    requires Core(p, a, {w}, hand)
    ensures Core(p.(idle := p.idle + [w]), a, {}, hand)
  {
    hide JobsApart, JobsAll, AttemptsOk, VerdictsOk, MessagesOk;
    var idle := p.idle + [w];
    forall i, j | 0 <= i < j < |idle|
      ensures idle[i] != idle[j]
    {
      assert idle[i] in p.idle;
    }
  }

  lemma UnparkKeeps(p: Pool, a: map<nat, Answer>, w: nat, idle: seq<nat>, hand: Option<Job>)
    requires Core(p, a, {}, hand) && w in p.idle && Distinct(idle)
    requires forall v :: v in idle <==> v in p.idle && v != w
    ensures Core(p.(idle := idle), a, {w}, hand)
  {
    hide JobsApart, JobsAll, AttemptsOk, VerdictsOk, MessagesOk;
  }

  /** The last idle worker, taken off. */
  lemma PopIdle(idle: seq<nat>)
    requires Distinct(idle) && idle != []
    ensures var n := |idle| - 1;
      && Distinct(idle[..n])
      && (forall v :: v in idle[..n] <==> v in idle && v != idle[n])
  {
    var n := |idle| - 1;
    assert idle == idle[..n] + [idle[n]];
  }

  lemma RetireKeeps(p: Pool, a: map<nat, Answer>, w: nat, hand: Option<Job>)
    requires Core(p, a, {w}, hand)
    ensures Core(Retire(p, w), a, {}, hand) && |Retire(p, w).workers| == |p.workers| - 1 && Retire(p, w).idle == p.idle
  {
    RemoveDistinct(p.workers, w);
    RemoveAbsent(p.idle, w);
    hide JobsApart, JobsAll, AttemptsOk, VerdictsOk, RemoveFirst;
  }

  lemma {:induction false} RemoveAbsent(s: seq<nat>, w: nat)
    requires w !in s
    ensures RemoveFirst(s, w) == s
  {
    if s != [] {
      RemoveAbsent(s[1..], w);
    }
  }

  // ---- Jobs ----

  lemma DequeueKeeps(p: Pool, a: map<nat, Answer>, loose: set<nat>)
    requires Core(p, a, loose, None) && p.queue != []
    ensures Core(p.(queue := p.queue[1..]), a, loose, Some(p.queue[0]))
  {
    DequeueJobs(p.queue, p.busy, p.settled, p.nextJob);
    hide WorkersOk, JobsAll, VerdictsOk, MessagesOk, QueuedOk, TriedOk;
  }

  lemma DequeueJobs(queue: seq<Job>, busy: map<nat, InFlight>, settled: seq<Settled>, nextJob: nat)
    requires JobsAll(queue, busy, settled, None, nextJob) && queue != []
    ensures JobsAll(queue[1..], busy, settled, Some(queue[0]), nextJob)
  {
    forall j: nat
      ensures Holds(queue[1..], busy, settled, Some(queue[0]), j) <==> Holds(queue, busy, settled, None, j)
    {
      if i :| 0 <= i < |queue| && queue[i].id == j {
        assert i > 0 ==> queue[1..][i - 1] == queue[i];
      }
    }
  }

  lemma EnqueueKeeps(p: Pool, a: map<nat, Answer>, loose: set<nat>, job: Job)
    requires Core(p, a, loose, Some(job)) && job.attempts < MAX_ATTEMPTS
    ensures Core(p.(queue := p.queue + [job]), a, loose, None)
  {
    EnqueueJobs(p.queue, p.busy, p.settled, p.nextJob, job);
    hide WorkersOk, JobsAll, VerdictsOk, MessagesOk;
  }

  lemma EnqueueJobs(queue: seq<Job>, busy: map<nat, InFlight>, settled: seq<Settled>, nextJob: nat, job: Job)
    requires JobsAll(queue, busy, settled, Some(job), nextJob)
    ensures JobsAll(queue + [job], busy, settled, None, nextJob)
  {
    var q := queue + [job];
    assert q[|queue|] == job;
    forall j: nat
      ensures Holds(q, busy, settled, None, j) <==> Holds(queue, busy, settled, Some(job), j)
    {
      if i :| 0 <= i < |queue| && queue[i].id == j {
        assert q[i] == queue[i];
      }
    }
  }

  lemma AcceptKeeps(p: Pool, a: map<nat, Answer>, loose: set<nat>)
    requires Core(p, a, loose, None)
    ensures Core(p.(nextJob := p.nextJob + 1), a, loose, Some(Job(p.nextJob, 0)))
  {
    var hand := Some(Job(p.nextJob, 0));
    assert !Holds(p.queue, p.busy, p.settled, None, p.nextJob);
    forall j: nat
      ensures Holds(p.queue, p.busy, p.settled, hand, j) <==> j < p.nextJob + 1
    {
      assert Holds(p.queue, p.busy, p.settled, None, j) <==> j < p.nextJob;
    }
    hide WorkersOk, VerdictsOk, MessagesOk, JobsAll;
  }

  lemma SettleKeeps(p: Pool, a: map<nat, Answer>, loose: set<nat>, job: Job, outcome: Outcome)
    requires Core(p, a, loose, Some(job)) && job.attempts >= 1
    requires outcome.GaveUp? ==> job.attempts >= MAX_ATTEMPTS
    requires outcome.Verdict? ==> Answered(p.sent, a, job.id, outcome.ok)
    ensures Core(Settle(p, job, outcome), a, loose, None)
  {
    SettleJobs(p.queue, p.busy, p.settled, p.nextJob, job, outcome);
    hide WorkersOk, MessagesOk, JobsAll, Answered;
  }

  lemma SettleJobs(queue: seq<Job>, busy: map<nat, InFlight>, settled: seq<Settled>, nextJob: nat, job: Job, outcome: Outcome)
    requires JobsAll(queue, busy, settled, Some(job), nextJob)
    ensures JobsAll(queue, busy, settled + [Settled(job, outcome)], None, nextJob)
  {
    var s := settled + [Settled(job, outcome)];
    assert s[|settled|].job == job;
    forall j: nat
      ensures Holds(queue, busy, s, None, j) <==> Holds(queue, busy, settled, Some(job), j)
    {
      if i :| 0 <= i < |settled| && settled[i].job.id == j {
        assert s[i] == settled[i];
      }
    }
  }

  lemma RetryOrFailKeeps(p: Pool, a: map<nat, Answer>, loose: set<nat>, job: Job)
    requires Core(p, a, loose, Some(job))
    ensures Core(RetryOrFail(p, job), a, loose, None)
  {
    hide Core;
    if job.attempts >= MAX_ATTEMPTS {
      SettleKeeps(p, a, loose, job, GaveUp);
    } else {
      EnqueueKeeps(p, a, loose, job);
    }
  }

  // ---- Messages ----

  lemma PostedSnoc(sent: seq<Sent>, m: Sent, j: nat)
    ensures Posted(sent + [m], j) == Posted(sent, j) + if m.job == j then 1 else 0
  {
    assert (sent + [m])[..|sent|] == sent;
  }

  lemma DispatchJobs(queue: seq<Job>, busy: map<nat, InFlight>, settled: seq<Settled>, nextJob: nat, w: nat, id: nat, job: Job)
    requires JobsAll(queue, busy, settled, Some(job), nextJob) && w !in busy
    ensures JobsAll(queue, busy[w := InFlight(id, job.(attempts := job.attempts + 1))], settled, None, nextJob)
  {
    var b := busy[w := InFlight(id, job.(attempts := job.attempts + 1))];
    assert b[w].job.id == job.id;
    forall j: nat
      ensures Holds(queue, b, settled, None, j) <==> Holds(queue, busy, settled, Some(job), j)
    {
      if v :| v in busy && busy[v].job.id == j {
        assert b[v] == busy[v];
      }
    }
  }

  lemma DispatchAttempts(queue: seq<Job>, busy: map<nat, InFlight>, settled: seq<Settled>, sent: seq<Sent>, nextJob: nat,
                         w: nat, id: nat, job: Job)
    requires AttemptsOk(queue, busy, settled, Some(job), sent, nextJob) && job.attempts < MAX_ATTEMPTS && job.id < nextJob
    requires JobsApart(queue, busy, settled, Some(job)) && w !in busy
    ensures AttemptsOk(queue, busy[w := InFlight(id, job.(attempts := job.attempts + 1))], settled, None,
                       sent + [Sent(id, w, job.id)], nextJob)
  {
    var m := Sent(id, w, job.id);
    forall j: nat
      ensures Posted(sent + [m], j) == Posted(sent, j) + if job.id == j then 1 else 0
    {
      PostedSnoc(sent, m, j);
    }
    hide Posted;
  }

  lemma DispatchMessages(sent: seq<Sent>, nextId: nat, nextWorker: nat, workers: seq<nat>, busy: map<nat, InFlight>,
                         a: map<nat, Answer>, w: nat, job: Job)
    requires MessagesOk(sent, nextId, nextWorker, workers, busy, a) && w !in busy && w in workers && w < nextWorker
    ensures MessagesOk(sent + [Sent(nextId, w, job.id)], nextId + 1, nextWorker, workers,
                       busy[w := InFlight(nextId, job.(attempts := job.attempts + 1))], a)
  {
    var m := Sent(nextId, w, job.id);
    var s := sent + [m];
    assert forall x :: x in s <==> x in sent || x == m;
    forall i, j | 0 <= i < j < |s|
      ensures s[i].id != s[j].id
    {
      assert s[i] in sent;
    }
  }

  lemma AnsweredMore(sent: seq<Sent>, m: Sent, a: map<nat, Answer>, id: nat, answer: Answer, job: nat, ok: bool)
    requires Answered(sent, a, job, ok) && id !in a
    ensures Answered(sent + [m], a, job, ok) && Answered(sent, a[id := answer], job, ok)
  {
    var x :| x in sent && x.job == job && x.id in a && a[x.id] == if ok then Ok else NotOk;
    assert x in sent + [m];
    assert a[id := answer][x.id] == a[x.id];
  }

  lemma DispatchVerdicts(settled: seq<Settled>, sent: seq<Sent>, a: map<nat, Answer>, m: Sent)
    requires VerdictsOk(settled, sent, a) && m.id !in a
    ensures VerdictsOk(settled, sent + [m], a)
  {
    hide Answered;
    forall i | 0 <= i < |settled| && settled[i].outcome.Verdict?
      ensures Answered(sent + [m], a, settled[i].job.id, settled[i].outcome.ok)
    {
      AnsweredMore(sent, m, a, m.id, Err, settled[i].job.id, settled[i].outcome.ok);
    }
  }

  lemma DispatchApart(queue: seq<Job>, busy: map<nat, InFlight>, settled: seq<Settled>, w: nat, id: nat, job: Job)
    requires JobsApart(queue, busy, settled, Some(job)) && w !in busy
    ensures JobsApart(queue, busy[w := InFlight(id, job.(attempts := job.attempts + 1))], settled, None)
  {
  }

  lemma DispatchWorkers(workers: seq<nat>, idle: seq<nat>, busy: set<nat>, nextWorker: nat, w: nat)
    requires WorkersOk(workers, idle, busy, nextWorker, {w})
    ensures WorkersOk(workers, idle, busy + {w}, nextWorker, {}) && w in workers && w < nextWorker && w !in busy
  {
  }

  lemma HandIsKnown(p: Pool, a: map<nat, Answer>, loose: set<nat>, job: Job)
    requires Core(p, a, loose, Some(job))
    ensures job.id < p.nextJob && p.nextId !in a
  {
    assert Holds(p.queue, p.busy, p.settled, Some(job), job.id);
    hide WorkersOk, JobsApart, AttemptsOk, VerdictsOk;
  }

  lemma DispatchKeeps(p: Pool, a: map<nat, Answer>, w: nat, job: Job)
    requires Core(p, a, {w}, Some(job)) && job.attempts < MAX_ATTEMPTS
    ensures Core(Dispatch(p, w, job), a, {}, None)
  {
    hide WorkersOk, JobsApart, JobsAll, AttemptsOk, MessagesOk, VerdictsOk;
    HandIsKnown(p, a, {w}, job);
    DispatchWorkers(p.workers, p.idle, p.busy.Keys, p.nextWorker, w);
    DispatchApart(p.queue, p.busy, p.settled, w, p.nextId, job);
    DispatchJobs(p.queue, p.busy, p.settled, p.nextJob, w, p.nextId, job);
    DispatchAttempts(p.queue, p.busy, p.settled, p.sent, p.nextJob, w, p.nextId, job);
    DispatchMessages(p.sent, p.nextId, p.nextWorker, p.workers, p.busy, a, w, job);
    DispatchVerdicts(p.settled, p.sent, a, Sent(p.nextId, w, job.id));
    assert Dispatch(p, w, job).busy.Keys == p.busy.Keys + {w};
  }

  // ---- Answers and deaths ----

  lemma PickUpJobs(queue: seq<Job>, busy: map<nat, InFlight>, settled: seq<Settled>, nextJob: nat, w: nat)
    requires JobsAll(queue, busy, settled, None, nextJob) && w in busy
    ensures JobsAll(queue, busy - {w}, settled, Some(busy[w].job), nextJob)
  {
    var b := busy - {w};
    forall j: nat
      ensures Holds(queue, b, settled, Some(busy[w].job), j) <==> Holds(queue, busy, settled, None, j)
    {
      if v :| v in busy && busy[v].job.id == j {
        assert v != w ==> b[v] == busy[v];
      }
    }
  }

  lemma PickUpMessages(sent: seq<Sent>, nextId: nat, nextWorker: nat, workers: seq<nat>, busy: map<nat, InFlight>,
                       a: map<nat, Answer>, w: nat, answer: Answer)
    requires MessagesOk(sent, nextId, nextWorker, workers, busy, a) && w in busy
    ensures MessagesOk(sent, nextId, nextWorker, workers, busy - {w}, a[busy[w].id := answer])
  {
    var id := busy[w].id;
    assert Sent(id, w, busy[w].job.id) in sent;
    forall v | v in busy && v != w
      ensures busy[v].id != id
    {
      var m, n := Sent(id, w, busy[w].job.id), Sent(busy[v].id, v, busy[v].job.id);
      var i :| 0 <= i < |sent| && sent[i] == m;
      var j :| 0 <= j < |sent| && sent[j] == n;
    }
  }

  lemma PickUpKeeps(p: Pool, a: map<nat, Answer>, w: nat, answer: Answer)
    requires Core(p, a, {}, None) && w in p.busy
    ensures var id := p.busy[w].id;
      && Core(p.(busy := p.busy - {w}), a[id := answer], {w}, Some(p.busy[w].job))
      && p.busy[w].job.attempts >= 1
      && (!answer.Err? ==> Answered(p.sent, a[id := answer], p.busy[w].job.id, answer.Ok?))
  {
    var id := p.busy[w].id;
    assert Sent(id, w, p.busy[w].job.id) in p.sent;
    PickUpJobs(p.queue, p.busy, p.settled, p.nextJob, w);
    PickUpMessages(p.sent, p.nextId, p.nextWorker, p.workers, p.busy, a, w, answer);
    MoreAnswers(p.settled, p.sent, a, id, answer);
    hide JobsAll, MessagesOk, VerdictsOk;
  }

  lemma MoreAnswers(settled: seq<Settled>, sent: seq<Sent>, a: map<nat, Answer>, id: nat, answer: Answer)
    requires VerdictsOk(settled, sent, a) && id !in a
    ensures VerdictsOk(settled, sent, a[id := answer])
  {
    hide Answered;
    forall i | 0 <= i < |settled| && settled[i].outcome.Verdict?
      ensures Answered(sent, a[id := answer], settled[i].job.id, settled[i].outcome.ok)
    {
      AnsweredMore(sent, Sent(0, 0, 0), a, id, answer, settled[i].job.id, settled[i].outcome.ok);
    }
  }

  lemma PickUpApart(queue: seq<Job>, busy: map<nat, InFlight>, settled: seq<Settled>, w: nat)
    requires JobsApart(queue, busy, settled, None) && w in busy
    ensures JobsApart(queue, busy - {w}, settled, Some(busy[w].job))
  {
  }

  lemma PickUpAttempts(queue: seq<Job>, busy: map<nat, InFlight>, settled: seq<Settled>, sent: seq<Sent>, nextJob: nat, w: nat)
    requires AttemptsOk(queue, busy, settled, None, sent, nextJob) && w in busy
    ensures AttemptsOk(queue, busy - {w}, settled, Some(busy[w].job), sent, nextJob)
  {
    hide QueuedOk, TriedOk;
  }

  lemma BusyLeaves(workers: seq<nat>, idle: seq<nat>, busy: set<nat>, nextWorker: nat, w: nat)
    requires WorkersOk(workers, idle, busy, nextWorker, {}) && w in busy
    ensures WorkersOk(RemoveFirst(workers, w), idle, busy - {w}, nextWorker, {}) && w !in idle && w in workers
  {
    RemoveDistinct(workers, w);
  }

  lemma DeafMessages(sent: seq<Sent>, nextId: nat, nextWorker: nat, workers: seq<nat>, busy: map<nat, InFlight>,
                     a: map<nat, Answer>, w: nat)
    requires MessagesOk(sent, nextId, nextWorker, workers, busy, a) && Distinct(workers)
    ensures MessagesOk(sent, nextId, nextWorker, RemoveFirst(workers, w), busy - {w}, a)
  {
    RemoveDistinct(workers, w);
    hide RemoveFirst;
  }

  /** A busy worker dies: its job is in hand, and messages to it no longer matter. */
  lemma BusyDies(p: Pool, a: map<nat, Answer>, w: nat)
    requires Core(p, a, {}, None) && w in p.busy
    ensures var q := Retire(p.(busy := p.busy - {w}), w);
      Core(q, a, {}, Some(p.busy[w].job)) && |q.workers| == |p.workers| - 1 && q.idle == p.idle
  {
    assert Distinct(p.workers);
    hide WorkersOk, JobsApart, JobsAll, AttemptsOk, MessagesOk, VerdictsOk, RemoveFirst, Distinct;
    BusyLeaves(p.workers, p.idle, p.busy.Keys, p.nextWorker, w);
    PickUpApart(p.queue, p.busy, p.settled, w);
    PickUpJobs(p.queue, p.busy, p.settled, p.nextJob, w);
    PickUpAttempts(p.queue, p.busy, p.settled, p.sent, p.nextJob, w);
    DeafMessages(p.sent, p.nextId, p.nextWorker, p.workers, p.busy, a, w);
    RemoveDistinct(p.workers, w);
    RemoveAbsent(p.idle, w);
    assert (p.busy - {w}).Keys == p.busy.Keys - {w};
  }

  lemma IdleDies(p: Pool, a: map<nat, Answer>, w: nat)
    requires Core(p, a, {}, None) && w in p.idle
    ensures Core(Retire(p, w), a, {}, None)
    ensures |Retire(p, w).workers| == |p.workers| - 1 && |Retire(p, w).idle| == |p.idle| - 1
  {
    RemoveDistinct(p.workers, w);
    RemoveDistinct(p.idle, w);
    hide JobsApart, JobsAll, AttemptsOk, VerdictsOk, RemoveFirst;
  }

  /** A late message concerns a worker that is gone. */
  lemma LateAnswer(p: Pool, a: map<nat, Answer>, id: nat, answer: Answer)
    requires Core(p, a, {}, None) && id !in a && id < p.nextId
    requires forall w :: w in p.busy ==> p.busy[w].id != id
    ensures Core(p, a[id := answer], {}, None)
  {
    MoreAnswers(p.settled, p.sent, a, id, answer);
    hide JobsApart, JobsAll, AttemptsOk, VerdictsOk, WorkersOk;
  }
}
