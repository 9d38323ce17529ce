/** The proof-of-work verification scheduler as a value, and what any interleaving keeps (src/chain/verifierPool.ts). */
module Scheduler {
  import opened Genesis

  const MAX_ATTEMPTS := 3

  /** A submitted block, numbered by submission, and how often it was handed to a worker. */
  datatype Job = Job(id: nat, attempts: nat)

  datatype InFlight = InFlight(id: nat, job: Job)

  /** A message posted to a worker. */
  datatype Sent = Sent(id: nat, worker: nat, job: nat)

  datatype Outcome = Verdict(ok: bool) | GaveUp

  /** A promise settled: a worker's verdict, or `false` because the job was given up. */
  datatype Settled = Settled(job: Job, outcome: Outcome)

  datatype Pool = Pool(
    workers: seq<nat>,
    idle: seq<nat>,
    queue: seq<Job>,
    busy: map<nat, InFlight>,
    nextId: nat,
    size: nat,
    started: bool,
    nextWorker: nat,
    nextJob: nat,
    sent: seq<Sent>,
    settled: seq<Settled>)

  /** What a worker posts back: a verdict, or that it could not verify. */
  datatype Answer = Ok | NotOk | Err

  function ClampCores(n: Option<int>, hardware: nat): nat {
    if n.None? then (if hardware < 4 then hardware else 4)
    else if n.value < 1 || hardware < 1 then 1
    else if n.value < hardware then n.value else hardware
  }

  function Create(size: nat): Pool {
    Pool([], [], [], map[], 1, size, false, 0, 0, [], [])
  }

  function RemoveFirst(s: seq<nat>, w: nat): (r: seq<nat>)
    ensures |r| <= |s|
  {
    if s == [] then [] else if s[0] == w then s[1..] else [s[0]] + RemoveFirst(s[1..], w)
  }

  function Spawn(p: Pool): Pool {
    p.(workers := p.workers + [p.nextWorker], nextWorker := p.nextWorker + 1)
  }

  function Retire(p: Pool, w: nat): Pool {
    p.(workers := RemoveFirst(p.workers, w), idle := RemoveFirst(p.idle, w))
  }

  function Dispatch(p: Pool, w: nat, job: Job): Pool {
    var j := job.(attempts := job.attempts + 1);
    p.(busy := p.busy[w := InFlight(p.nextId, j)], nextId := p.nextId + 1, sent := p.sent + [Sent(p.nextId, w, job.id)])
  }

  function Settle(p: Pool, job: Job, outcome: Outcome): Pool {
    p.(settled := p.settled + [Settled(job, outcome)])
  }

  function RetryOrFail(p: Pool, job: Job): Pool {
    if job.attempts >= MAX_ATTEMPTS then Settle(p, job, GaveUp) else p.(queue := p.queue + [job])
  }

  /** A worker is free: give it the oldest queued job, or let it go if the pool shrank, or park it. */
  function Release(p: Pool, w: nat): (q: Pool)
    ensures |p.workers| <= p.size ==> q.workers == p.workers && q.size == p.size
  {
    if w !in p.workers then p
    else if p.queue != [] then Dispatch(p.(queue := p.queue[1..]), w, p.queue[0])
    else if |p.workers| > p.size then Retire(p, w)
    else p.(idle := p.idle + [w])
  }

  function SpawnAndRelease(p: Pool): Pool {
    Release(Spawn(p), p.nextWorker)
  }

  /** A message from worker `w` about message `id`. */
  function Reply(p: Pool, w: nat, id: nat, answer: Answer): Pool {
    Release(TakeAnswer(p, w, id, answer), w)
  }

  function TakeAnswer(p: Pool, w: nat, id: nat, answer: Answer): Pool {
    if w in p.busy && p.busy[w].id == id then
      var job, q := p.busy[w].job, p.(busy := p.busy - {w});
      if answer.Err? then RetryOrFail(q, job) else Settle(q, job, Verdict(answer.Ok?))
    else p
  }

  /** A worker died or timed out. */
  function Fail(p: Pool, w: nat): Pool {
    Backfill(Abandon(p, w))
  }

  function Abandon(p: Pool, w: nat): Pool {
    var q := Retire(p.(busy := p.busy - {w}), w);
    if w in p.busy then RetryOrFail(q, p.busy[w].job) else q
  }

  function Backfill(p: Pool): Pool {
    if p.started && |p.workers| < p.size then SpawnAndRelease(p) else p
  }

  function StartWorkers(p: Pool, n: nat): Pool
    decreases n
  {
    if n == 0 then p
    else
      var q := StartWorkers(p, n - 1);
      Spawn(q).(idle := q.idle + [q.nextWorker])
  }

  function EnsureStarted(p: Pool): Pool {
    if p.started then p else StartWorkers(p.(started := true), p.size)
  }

  /** Submit a block. */
  function Verify(p: Pool): Pool {
    var q := EnsureStarted(p);
    var job, q1 := Job(q.nextJob, 0), q.(nextJob := q.nextJob + 1);
    if q1.idle != [] then Dispatch(q1.(idle := q1.idle[..|q1.idle| - 1]), q1.idle[|q1.idle| - 1], job)
    else q1.(queue := q1.queue + [job])
  }

  function Grow(p: Pool): Pool
    decreases p.size - |p.workers|
  {
    if |p.workers| >= p.size then p
    else Grow(SpawnAndRelease(p))
  }

  function Shrink(p: Pool): Pool
    decreases |p.idle|
  {
    if |p.workers| <= p.size || p.idle == [] then p
    else Shrink(Retire(p.(idle := p.idle[..|p.idle| - 1]), p.idle[|p.idle| - 1]))
  }

  function SetSize(p: Pool, size: nat): Pool {
    var q := p.(size := size);
    if !q.started then q else Shrink(Grow(q))
  }
}
