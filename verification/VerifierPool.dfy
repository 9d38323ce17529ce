/** The mutable verifier pool: each handler proved equal to the scheduler model (src/chain/verifierPool.ts). */
module VerifierPool {
  import opened Genesis
  import opened Scheduler
  import opened SchedulerLaws

  lemma {:induction false} RemoveAtIndex(s: seq<nat>, w: nat, i: nat)
    requires i < |s| && s[i] == w && forall j :: 0 <= j < i ==> s[j] != w
    ensures RemoveFirst(s, w) == s[..i] + s[i + 1..]
  {
    if i > 0 {
      RemoveAtIndex(s[1..], w, i - 1);
      assert s[..i] + s[i + 1..] == [s[0]] + (s[1..][..i - 1] + s[1..][i..]);
    }
  }

  class VerifierPool {
    const hardware: nat
    var workers: seq<nat>
    var idle: seq<nat>
    var queue: seq<Job>
    var busy: map<nat, InFlight>
    var nextId: nat
    var size: nat
    var started: bool
    /** Workers created, jobs submitted, messages posted and promises settled so far. */
    var nextWorker: nat
    var nextJob: nat
    var sent: seq<Sent>
    var settled: seq<Settled>

    ghost function Value(): Pool
      reads this
    {
      Pool(workers, idle, queue, busy, nextId, size, started, nextWorker, nextJob, sent, settled)
    }

    constructor (requested: Option<int>, hardware: nat)
      ensures this.hardware == hardware && Value() == Create(ClampCores(requested, hardware))
    {
      this.hardware := hardware;
      workers, idle, queue, busy, nextId, size, started := [], [], [], map[], 1, ClampCores(requested, hardware), false;
      nextWorker, nextJob, sent, settled := 0, 0, [], [];
    }

    method SpawnWorker() returns (w: nat)
      modifies this
      ensures w == old(nextWorker) && Value() == Spawn(old(Value()))
    {
      w := nextWorker;
      nextWorker := nextWorker + 1;
      workers := workers + [w];
    }

    method Resolve(job: Job, outcome: Outcome)
      modifies this
      ensures Value() == Settle(old(Value()), job, outcome)
    {
      settled := settled + [Settled(job, outcome)];
    }

    /** A worker's message; one that is not about its current job only releases it. */
    method OnMessage(w: nat, id: nat, answer: Answer)
      modifies this
      ensures Value() == Reply(old(Value()), w, id, answer)
    {
      hide Release;
      if w in busy && busy[w].id == id {
        var job := busy[w].job;
        busy := busy - {w};
        if answer.Err? {
          Requeue(job);
        } else {
          Resolve(job, Verdict(answer.Ok?));
        }
      }
      ReleaseWorker(w);
    }

    /** Retire a dead or stalled worker, retry its job, and keep the pool at its size. */
    method FailWorker(w: nat)
      modifies this
      ensures Value() == Fail(old(Value()), w)
    {
      hide Release, Retire, RetryOrFail, Spawn;
      var entry := if w in busy then Some(busy[w]) else None;
      busy := busy - {w};
      RetireWorker(w);
      if entry.Some? {
        Requeue(entry.value.job);
      }
      if started && |workers| < size {
        var spare := SpawnWorker();
        ReleaseWorker(spare);
      }
    }

    method Requeue(job: Job)
      modifies this
      ensures Value() == RetryOrFail(old(Value()), job)
    {
      if job.attempts >= MAX_ATTEMPTS {
        Resolve(job, GaveUp);
        return;
      }
      queue := queue + [job];
    }

    method Start()
      modifies this
      ensures Value() == EnsureStarted(old(Value()))
    {
      if started {
        return;
      }
      started := true;
      ghost var p := Value();
      for i := 0 to size
        invariant size == old(size) && Value() == StartWorkers(p, i)
      {
        var w := SpawnWorker();
        idle := idle + [w];
      }
    }

    /** Apply a new core count live. */
    method Resize(requested: Option<int>)
      modifies this
      ensures Value() == SetSize(old(Value()), ClampCores(requested, hardware))
    {
      hide Release, Retire, Spawn;
      size := ClampCores(requested, hardware);
      if !started {
        return;
      }
      ghost var p := Value();
      while |workers| < size
        invariant size == p.size && Grow(Value()) == Grow(p)
        decreases size - |workers|
      {
        ghost var before := Value();
        SpawnCount(before);
        var w := SpawnWorker();
        ReleaseWorker(w);
        assert Value() == SpawnAndRelease(before);
      }
      ghost var grown := Value();
      while |workers| > size && |idle| > 0
        invariant Shrink(Value()) == Shrink(grown)
        decreases |idle|
      {
        ghost var before := Value();
        var w := idle[|idle| - 1];
        idle := idle[..|idle| - 1];
        RetireShortens(Value(), w);
        RetireWorker(w);
      }
    }

    lemma SpawnCount(p: Pool)
      requires |p.workers| < p.size
      ensures |SpawnAndRelease(p).workers| == |p.workers| + 1 && SpawnAndRelease(p).size == p.size
    {
    }

    lemma RetireShortens(p: Pool, w: nat)
      ensures |Retire(p, w).idle| <= |p.idle|
    {
    }

    method RetireWorker(w: nat)
      modifies this
      ensures Value() == Retire(old(Value()), w)
    {
      workers := Splice(workers, w);
      idle := Splice(idle, w);
    }

    /** Cut out the first occurrence, if any. */
    method Splice(s: seq<nat>, w: nat) returns (r: seq<nat>)
      ensures r == RemoveFirst(s, w)
    {
      var i := 0;
      while i < |s|
        invariant 0 <= i <= |s| && forall j :: 0 <= j < i ==> s[j] != w
      {
        if s[i] == w {
          RemoveAtIndex(s, w, i);
          return s[..i] + s[i + 1..];
        }
        i := i + 1;
      }
      RemoveAbsent(s, w);
      return s;
    }

    method ReleaseWorker(w: nat)
      modifies this
      ensures Value() == Release(old(Value()), w)
    {
      hide RemoveFirst;
      if w !in workers {
        return;
      }
      if |queue| > 0 {
        var next := queue[0];
        queue := queue[1..];
        Post(w, next);
      } else if |workers| > size {
        RetireWorker(w);
      } else {
        idle := idle + [w];
      }
    }

    /** Hand a job to a worker. */
    method Post(w: nat, job: Job)
      modifies this
      ensures Value() == Dispatch(old(Value()), w, job)
    {
      var id := nextId;
      nextId := nextId + 1;
      var tried := job.(attempts := job.attempts + 1);
      busy := busy[w := InFlight(id, tried)];
      sent := sent + [Sent(id, w, job.id)];
    }

    /** Submit a block; its number stands for the promise. */
    method Submit() returns (job: nat)
      modifies this
      ensures Value() == Verify(old(Value())) && job == old(nextJob)
    {
      hide Spawn;
      ghost var p := Value();
      StartKeepsCount(p);
      Start();
      job := nextJob;
      nextJob := nextJob + 1;
      if |idle| > 0 {
        var w := idle[|idle| - 1];
        idle := idle[..|idle| - 1];
        Post(w, Job(job, 0));
      } else {
        queue := queue + [Job(job, 0)];
      }
    }

    lemma StartKeepsCount(p: Pool)
      ensures EnsureStarted(p).nextJob == p.nextJob
    {
      if !p.started {
        StartSame(p.(started := true), p.size);
      }
    }

    lemma {:induction false} StartSame(p: Pool, n: nat)
      ensures StartWorkers(p, n).nextJob == p.nextJob
      decreases n
    {
      if n > 0 {
        StartSame(p, n - 1);
      }
    }
  }
}
