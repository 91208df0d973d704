/**
 * `SendQueue`: a first-in first-out queue of asynchronous jobs, each
 * optionally tagged with a class name. A drain takes the jobs one by one
 * from the front, awaits each, and pauses the queue when it finds it empty.
 *
 * The jobs themselves are opaque here: a job is known by the number of jobs
 * added before it and by its class name. A drain is an asynchronous loop;
 * it is modelled by the job it currently awaits (the `active` list, one entry
 * per running drain) and its iterations are the events `Start` and
 * `JobSettled`. Which jobs were taken and how they settled is recorded in
 * two ghost logs.
 */
module SendQueue {
  import opened Wrappers

  datatype Job = Job(id: nat, className: Option<string>)

  /** How the promise returned by `add` for a job settled. */
  datatype Settlement = Resolved(job: Job) | Rejected(job: Job)

  /** Jobs in the order they were added. */
  predicate Increasing(q: seq<Job>) {
    forall i, j :: 0 <= i < j < |q| ==> q[i].id < q[j].id
  }

  /** Every job of `a` was added before every job of `b`. */
  predicate Before(a: seq<Job>, b: seq<Job>) {
    forall x, y :: x in a && y in b ==> x.id < y.id
  }

  /** Taking the first waiting job keeps the taken jobs, and the waiting ones, in the order they were added. */
  lemma TakeFirstKeepsOrder(started: seq<Job>, queue: seq<Job>)
    requires Increasing(started) && Increasing(queue) && Before(started, queue) && queue != []
    ensures queue[0] !in started
    ensures Increasing(started + [queue[0]]) && Increasing(queue[1..])
    ensures Before(started + [queue[0]], queue[1..])
  {
    var first := queue[0];
    assert first in queue;
    var after := started + [first];
    forall i, j | 0 <= i < j < |after| ensures after[i].id < after[j].id {
      if j == |started| {
        assert after[i] in started;
      } else {
        assert after[i] == started[i] && after[j] == started[j];
      }
    }
    forall i, j | 0 <= i < j < |queue[1..]| ensures queue[1..][i].id < queue[1..][j].id {
      assert queue[1..][i] == queue[i + 1] && queue[1..][j] == queue[j + 1];
    }
    forall x, y | x in after && y in queue[1..] ensures x.id < y.id {
      var j :| 0 <= j < |queue[1..]| && queue[1..][j] == y;
      assert queue[j + 1] == y;
      if x != first {
        assert x in started;
      }
    }
  }

  /** A new job, numbered after every job so far, goes after all of them. */
  lemma AppendKeepsOrder(started: seq<Job>, queue: seq<Job>, job: Job)
    requires Increasing(queue) && Before(started, queue)
    requires forall x :: x in started ==> x.id < job.id
    requires forall x :: x in queue ==> x.id < job.id
    ensures Increasing(queue + [job]) && Before(started, queue + [job])
  {
    var after := queue + [job];
    forall i, j | 0 <= i < j < |after| ensures after[i].id < after[j].id {
      assert after[i] == queue[i];
      if j == |queue| {
        assert queue[i] in queue;
      } else {
        assert after[j] == queue[j];
      }
    }
  }

  /** A settled job leaves the list of awaited jobs, and only that job does. */
  lemma RemoveAwaited(active: seq<Job>, k: nat)
    requires Distinct(active) && k < |active|
    ensures var rest := active[..k] + active[k + 1..];
            Distinct(rest) && forall x :: x in rest <==> x in active && x != active[k]
  {
    var rest := active[..k] + active[k + 1..];
    forall x | x in active && x != active[k] ensures x in rest {
      var i :| 0 <= i < |active| && active[i] == x;
      if i < k { assert rest[i] == x; } else { assert rest[i - 1] == x; }
    }
  }

  /** `queue.filter(job => job.className !== className)`. */
  function KeepOthers(q: seq<Job>, className: Option<string>): (r: seq<Job>)
    ensures forall job :: job in r <==> job in q && job.className != className
    ensures |r| <= |q|
  {
    if q == [] then []
    else if q[0].className != className then [q[0]] + KeepOthers(q[1..], className)
    else KeepOthers(q[1..], className)
  }

  /** Filtering keeps the jobs that stay in their order. */
  lemma {:induction false} KeepOthersIncreasing(q: seq<Job>, className: Option<string>)
    requires Increasing(q)
    ensures Increasing(KeepOthers(q, className))
  {
    if q != [] {
      KeepOthersIncreasing(q[1..], className);
    }
  }

  /** Removing a class twice is removing it once. */
  lemma {:induction false} KeepOthersIdempotent(q: seq<Job>, className: Option<string>)
    ensures KeepOthers(KeepOthers(q, className), className) == KeepOthers(q, className)
  {
    if q != [] {
      KeepOthersIdempotent(q[1..], className);
    }
  }

  /** The jobs of other classes are untouched: filtering a queue with none of the class changes nothing. */
  lemma {:induction false} KeepOthersWithoutClass(q: seq<Job>, className: Option<string>)
    requires forall job :: job in q ==> job.className != className
    ensures KeepOthers(q, className) == q
  {
    if q != [] {
      KeepOthersWithoutClass(q[1..], className);
    }
  }

  function Settle(job: Job, ok: bool): (s: Settlement)
    ensures s.job == job && (s.Resolved? <==> ok)
  {
    if ok then Resolved(job) else Rejected(job)
  }

  /** No job settles twice. */
  predicate SettledOnce(settled: seq<Settlement>) {
    forall i, j :: 0 <= i < j < |settled| ==> settled[i].job != settled[j].job
  }

  /** Settling a job that had not settled keeps every job settled at most once. */
  lemma SettleNew(settled: seq<Settlement>, job: Job, ok: bool)
    requires SettledOnce(settled) && forall s :: s in settled ==> s.job != job
    ensures SettledOnce(settled + [Settle(job, ok)])
  {
    var after := settled + [Settle(job, ok)];
    forall i, j | 0 <= i < j < |after| ensures after[i].job != after[j].job {
      if j == |settled| {
        assert after[i] in settled;
      }
    }
  }

  class SendQueue {
    var queue: seq<Job>
    const autoStart: bool
    var paused: bool
    /** The job each running drain is awaiting. */
    var active: seq<Job>
    /** The id the next added job gets. */
    var nextId: nat

    /** Every job a drain took, in the order taken. */
    ghost var started: seq<Job>
    ghost var settled: seq<Settlement>

    /**
     * Jobs are taken in the order they were added, each at most once; the
     * awaited jobs were taken and have not settled; and every job settles
     * at most once.
     */
    ghost predicate Consistent()
      reads this
    {
      Increasing(started) && Increasing(queue) &&
      Before(started, queue) &&
      (forall job :: job in started ==> job.id < nextId) &&
      (forall job :: job in queue ==> job.id < nextId) &&
      Distinct(active) &&
      (forall job :: job in active ==> job in started) &&
      (forall s :: s in settled ==> s.job in started && s.job !in active) &&
      SettledOnce(settled)
    }

    /** Besides, a running queue has a job in flight. */
    ghost predicate Ordered()
      reads this
    {
      Consistent() && (!paused ==> active != [])
    }

    /** Besides, a queue that starts itself is never paused with jobs waiting. */
    ghost predicate Valid()
      reads this
    {
      Ordered() && (autoStart && paused ==> queue == [])
    }

    /**
     * The queue runs one job at a time: at most one drain, and one is
     * running exactly when the queue is not paused.
     */
    ghost predicate SingleDrain()
      reads this
    {
      |active| <= 1 && (paused <==> active == [])
    }

    /** `autoStart` defaults to true. */
    constructor (autoStart: Option<bool>)
      ensures Valid() && SingleDrain()
      ensures this.autoStart == autoStart.GetOr(true)
      ensures paused && queue == [] && active == [] && nextId == 0
      ensures started == [] && settled == []
    {
      this.autoStart := autoStart.GetOr(true);
      paused := true;
      queue := [];
      active := [];
      nextId := 0;
      started := [];
      settled := [];
    }

    /** With `autoStart`, a waiting job always has a drain running ahead of it. */
    lemma WaitingJobHasDrain()
      requires Valid() && autoStart && queue != []
      ensures !paused && active != []
    {
    }

    /**
     * One turn of a drain's loop: shift the first job and await it, or,
     * with the queue empty, leave the loop and pause the queue.
     */
    method TakeNext()
      requires Consistent() && (autoStart && paused ==> queue == [])
      modifies this
      ensures Valid()
      ensures old(queue) == [] ==>
                paused && queue == [] && active == old(active) && started == old(started)
      ensures old(queue) != [] ==>
                paused == old(paused) && queue == old(queue)[1..] && active == old(active) + [old(queue)[0]] &&
                started == old(started) + [old(queue)[0]]
      ensures settled == old(settled) && nextId == old(nextId)
    {
      if queue == [] {
        paused := true;
        return;
      }
      TakeFirstKeepsOrder(started, queue);
      var first := queue[0];
      queue := queue[1..];
      active := active + [first];
      started := started + [first];
    }

    /**
     * `start`: unpause, and let a new drain take the first job, or pause
     * again at once when there is none.
     */
    method Start()
      requires Ordered()
      modifies this
      ensures Valid()
      ensures old(queue) == [] ==>
                paused && queue == [] && active == old(active) && started == old(started)
      ensures old(queue) != [] ==>
                !paused && queue == old(queue)[1..] && active == old(active) + [old(queue)[0]] &&
                started == old(started) + [old(queue)[0]]
      ensures settled == old(settled) && nextId == old(nextId)
      ensures old(paused) && old(SingleDrain()) ==> SingleDrain()
    {
      paused := false;
      TakeNext();
    }

    /**
     * `add`: append a new job; a paused queue that starts itself is started,
     * and then takes that job at once.
     */
    method Add(className: Option<string>) returns (job: Job)
      requires Valid()
      modifies this
      ensures Valid()
      ensures job == Job(old(nextId), className) && nextId == old(nextId) + 1
      ensures old(autoStart && paused) ==>
                queue == [] && !paused && active == old(active) + [job] && started == old(started) + [job]
      ensures !old(autoStart && paused) ==>
                queue == old(queue) + [job] && paused == old(paused) && active == old(active) && started == old(started)
      ensures settled == old(settled)
      ensures old(SingleDrain()) ==> SingleDrain()
    {
      job := Job(nextId, className);
      AppendKeepsOrder(started, queue, job);
      nextId := nextId + 1;
      queue := queue + [job];
      if autoStart && paused {
        Start();
      }
    }

    /**
     * The job awaited by the `k`th running drain settles: its outcome is
     * recorded, and that drain takes the next job, or ends and pauses the
     * queue when there is none.
     */
    method JobSettled(k: nat, ok: bool)
      requires Valid() && k < |active|
      modifies this
      ensures Valid()
      ensures settled == old(settled) + [Settle(old(active)[k], ok)]
      ensures old(queue) == [] ==>
                paused && queue == [] && active == old(active)[..k] + old(active)[k + 1..] &&
                started == old(started)
      ensures old(queue) != [] ==>
                paused == old(paused) && queue == old(queue)[1..] &&
                active == old(active)[..k] + old(active)[k + 1..] + [old(queue)[0]] &&
                started == old(started) + [old(queue)[0]]
      ensures nextId == old(nextId)
      ensures old(SingleDrain()) ==> SingleDrain()
    {
      var job := active[k];
      RemoveAwaited(active, k);
      SettleNew(settled, job, ok);
      settled := settled + [Settle(job, ok)];
      active := active[..k] + active[k + 1..];
      TakeNext();
    }

    /** `clear`: drop every waiting job; the jobs in flight are not affected. */
    method Clear()
      requires Valid()
      modifies this
      ensures Valid()
      ensures queue == []
      ensures paused == old(paused) && active == old(active) && nextId == old(nextId)
      ensures started == old(started) && settled == old(settled)
      ensures old(SingleDrain()) ==> SingleDrain()
    {
      queue := [];
    }

    /** `remove`: drop the waiting jobs of one class (`None` removes the untagged ones). */
    method Remove(className: Option<string>)
      requires Valid()
      modifies this
      ensures Valid()
      ensures queue == KeepOthers(old(queue), className)
      ensures paused == old(paused) && active == old(active) && nextId == old(nextId)
      ensures started == old(started) && settled == old(settled)
      ensures old(SingleDrain()) ==> SingleDrain()
    {
      KeepOthersIncreasing(queue, className);
      queue := KeepOthers(queue, className);
    }
  }

  /**
   * `start` has no guard: called by hand while a drain runs, it starts a
   * second drain beside it, and two jobs are then in flight together.
   */
  method ManualStartRunsTwoDrains() returns (q: SendQueue)
    ensures q.Valid() && q.autoStart && !q.SingleDrain()
    ensures |q.active| == 2 && q.active[0].id == 0 && q.active[1].id == 1
  {
    q := new SendQueue(None);
    var first := q.Add(None);
    var second := q.Add(None);
    q.Start();
  }
}
