/**
 The de-duplicating queue of thumbnail conversions: requesters under a lock, a bounded
 channel, and two workers. A worker takes a job without the lock, so it can have it
 before the requester, still holding the lock, has recorded it as pending.
 */
module ThumbQueue {
  import opened Bytes

  const JOBS_CAPACITY := 16
  const MAX_PENDING := 18

  type Path = int

  /** `done` identifies the channel that is closed when the job is over. */
  datatype Job = Job(path: Path, done: nat)

  /** Who holds the lock between steps: nobody, or a requester that has queued this job but not recorded it. */
  datatype Lock = Free | Queued(job: Job)

  datatype Queue = Queue(
    pending: map<Path, nat>, jobs: seq<Job>, first: Option<Job>, second: Option<Job>,
    lock: Lock, accepted: nat, closed: seq<nat>)

  const NEW_QUEUE := Queue(map[], [], None, None, Free, 0, [])

  /** The two workers. */
  datatype Worker = First | Second

  datatype Event = Request(path: Path, convertible: bool) | Record | Take(w: Worker) | Finish(w: Worker)

  function Working(q: Queue, w: Worker): Option<Job> {
    if w.First? then q.first else q.second
  }

  function SetWorking(q: Queue, w: Worker, j: Option<Job>): Queue {
    if w.First? then q.(first := j) else q.(second := j)
  }

  /** One step; an event that is not possible now leaves everything as it is. */
  function Step(q: Queue, ev: Event): Queue {
    match ev
    case Request(path, convertible) =>
      if !convertible || q.lock != Free || path in q.pending || |q.jobs| >= JOBS_CAPACITY then q
      else
        var job := Job(path, q.accepted);
        q.(jobs := q.jobs + [job], lock := Queued(job), accepted := q.accepted + 1)
    case Record =>
      if q.lock == Free then q
      else q.(pending := q.pending[q.lock.job.path := q.lock.job.done], lock := Free)
    case Take(w) =>
      if Working(q, w).Some? || q.jobs == [] then q
      else SetWorking(q.(jobs := q.jobs[1..]), w, Some(q.jobs[0]))
    case Finish(w) =>
      var j := Working(q, w);
      if j.None? || q.lock != Free then q
      else SetWorking(q.(pending := q.pending - {j.value.path}, closed := q.closed + [j.value.done]), w, None)
  }

  /** The channel that a requester is given to wait on, if any. */
  function Granted(q: Queue, path: Path, convertible: bool): Option<nat> {
    if !convertible || q.lock != Free then None
    else if path in q.pending then Some(q.pending[path])
    else if |q.jobs| >= JOBS_CAPACITY then None
    else Some(q.accepted)
  }

  // ---------------------------------------------------------------- the jobs under way

  /** Queued or being converted. */
  function Live(q: Queue): seq<Job> {
    q.jobs + Held(q.first) + Held(q.second)
  }

  predicate DistinctJobs(live: seq<Job>) {
    forall i, j :: 0 <= i < j < |live| ==> live[i].path != live[j].path && live[i].done != live[j].done
  }

  predicate IsLive(q: Queue, j: Job) {
    j in q.jobs || q.first == Some(j) || q.second == Some(j)
  }

  predicate Distinct(closed: seq<nat>) {
    forall i, j :: 0 <= i < j < |closed| ==> closed[i] != closed[j]
  }

  /** What is pending once the requester that holds the lock has recorded its job. */
  function PendingSoon(q: Queue): map<Path, nat> {
    if q.lock == Free then q.pending else q.pending[q.lock.job.path := q.lock.job.done]
  }

  /** Pending are exactly the jobs under way. */
  ghost predicate PendingFits(pending: map<Path, nat>, live: seq<Job>) {
    && (forall j :: j in live ==> j.path in pending && pending[j.path] == j.done)
    && (forall p :: p in pending ==> Job(p, pending[p]) in live)
  }

  predicate Owned(live: seq<Job>, d: nat) {
    exists j :: j in live && j.done == d
  }

  /** Of every accepted job, the channel has been closed, once, or the job is still under way. */
  ghost predicate ClosedFits(closed: seq<nat>, accepted: nat, live: seq<Job>) {
    && Distinct(closed)
    && (forall d: nat {:trigger d in closed} {:trigger Owned(live, d)} ::
          d in closed <==> d < accepted && !Owned(live, d))
    && (forall j :: j in live ==> j.done < accepted)
  }

  ghost predicate Inv(q: Queue) {
    && |q.jobs| <= JOBS_CAPACITY
    && DistinctJobs(Live(q))
    && PendingFits(PendingSoon(q), Live(q))
    && ClosedFits(q.closed, q.accepted, Live(q))
    && (q.lock != Free ==> q.lock.job in Live(q) && q.lock.job.path !in q.pending)
  }

  // ---------------------------------------------------------------- each step keeps it

  lemma SameOwned(a: seq<Job>, b: seq<Job>)
    requires forall j :: j in a <==> j in b
    ensures forall d: nat :: Owned(a, d) <==> Owned(b, d)
  {
  }

  lemma InsertDistinct(a: seq<Job>, job: Job, b: seq<Job>)
    requires DistinctJobs(a + b) && forall j :: j in a + b ==> j.path != job.path && j.done != job.done
    ensures DistinctJobs(a + [job] + b)
    ensures forall j :: j in a + [job] + b <==> j in a + b || j == job
  {
    var out, all := a + [job] + b, a + b;
    forall i, j | 0 <= i < j < |out|
      ensures out[i].path != out[j].path && out[i].done != out[j].done
    {
      if i == |a| {
        assert out[j] == all[j - 1] && all[j - 1] in all;
      } else if j == |a| {
        assert out[i] == all[i] && all[i] in all;
      } else {
        assert out[i] == all[if i < |a| then i else i - 1];
        assert out[j] == all[if j < |a| then j else j - 1];
      }
    }
  }

  lemma RemoveDistinct(a: seq<Job>, job: Job, b: seq<Job>)
    requires DistinctJobs(a + [job] + b)
    ensures DistinctJobs(a + b)
    ensures forall j :: j in a + b <==> j in a + [job] + b && j != job
    ensures forall j :: j in a + b ==> j.path != job.path && j.done != job.done
  {
    var all, out := a + [job] + b, a + b;
    assert forall i :: 0 <= i < |out| ==> out[i] == if i < |a| then all[i] else all[i + 1];
    assert all[|a|] == job;
    forall i, j | 0 <= i < j < |out|
      ensures out[i].path != out[j].path && out[i].done != out[j].done
    {
      assert out[i] == all[if i < |a| then i else i + 1] && out[j] == all[if j < |a| then j else j + 1];
    }
    forall j | j in out
      ensures j.path != job.path && j.done != job.done
    {
      var i :| 0 <= i < |out| && out[i] == j;
      assert if i < |a| then all[i] == j else all[i + 1] == j;
    }
  }

  lemma RequestKeepsInv(q: Queue, path: Path)
    requires Inv(q) && q.lock == Free && path !in q.pending && |q.jobs| < JOBS_CAPACITY
    ensures Inv(Step(q, Request(path, true)))
  {
    var r, job := Step(q, Request(path, true)), Job(path, q.accepted);
    var rest := Held(q.first) + Held(q.second);
    assert Live(q) == q.jobs + rest && Live(r) == q.jobs + [job] + rest;
    InsertDistinct(q.jobs, job, rest);
    forall d: nat
      ensures d in r.closed <==> d < r.accepted && !Owned(Live(r), d)
    {
      assert job in Live(r);
      assert Owned(Live(r), d) <==> Owned(Live(q), d) || d == job.done;
    }
  }

  lemma FinishKeepsInv(q: Queue, a: seq<Job>, job: Job, b: seq<Job>, r: Queue)
    requires Inv(q) && q.lock == Free && Live(q) == a + [job] + b
    requires Live(r) == a + b && |r.jobs| <= JOBS_CAPACITY && r.lock == Free && r.accepted == q.accepted
    requires r.pending == q.pending - {job.path} && r.closed == q.closed + [job.done]
    ensures Inv(r)
  {
    RemoveDistinct(a, job, b);
    assert job in Live(q);
    assert Owned(Live(q), job.done);
    forall d: nat
      ensures d in r.closed <==> d < r.accepted && !Owned(Live(r), d)
    {
      assert Owned(Live(q), d) <==> Owned(Live(r), d) || d == job.done;
      assert d in r.closed <==> d in q.closed || d == job.done;
    }
    forall p | p in r.pending
      ensures Job(p, r.pending[p]) in Live(r)
    {
      assert p in q.pending && Job(p, q.pending[p]) in Live(q);
    }
  }

  lemma StepKeepsInv(q: Queue, ev: Event)
    requires Inv(q)
    ensures Inv(Step(q, ev))
  {
    var r := Step(q, ev);
    match ev
    case Request(path, convertible) =>
      if convertible && q.lock == Free && path !in q.pending && |q.jobs| < JOBS_CAPACITY {
        RequestKeepsInv(q, path);
      }
    case Record =>
      if q.lock != Free {
        assert Live(r) == Live(q) && PendingSoon(r) == PendingSoon(q);
      }
    case Take(w) => if Working(q, w).None? && q.jobs != [] { TakeKeepsInv(q, w); }
    case Finish(w) => if Working(q, w).Some? && q.lock == Free { FinishedKeepsInv(q, w); }
  }

  /** A job that moves within the sequence of those under way. */
  lemma MovedJob(a: seq<Job>, job: Job, b: seq<Job>)
    requires DistinctJobs([job] + (a + b))
    ensures DistinctJobs(a + [job] + b)
    ensures forall j :: j in [job] + (a + b) <==> j in a + [job] + b
  {
    assert [] + [job] + (a + b) == [job] + (a + b);
    assert [] + (a + b) == a + b;
    RemoveDistinct([], job, a + b);
    InsertDistinct(a, job, b);
  }

  lemma TakeMoves(q: Queue, w: Worker)
    requires Working(q, w).None? && q.jobs != [] && DistinctJobs(Live(q))
    ensures DistinctJobs(Live(Step(q, Take(w))))
    ensures forall j :: j in Live(q) <==> j in Live(Step(q, Take(w)))
  {
    var r, job, rest := Step(q, Take(w)), q.jobs[0], q.jobs[1..];
    if w == First {
      assert Live(q) == [job] + (rest + Held(q.second));
      assert Live(r) == rest + [job] + Held(q.second);
      MovedJob(rest, job, Held(q.second));
    } else {
      assert Live(q) == [job] + (rest + Held(q.first) + []);
      assert Live(r) == rest + Held(q.first) + [job] + [];
      MovedJob(rest + Held(q.first), job, []);
    }
  }

  lemma SameJobs(q: Queue, live: seq<Job>)
    requires Inv(q) && DistinctJobs(live) && forall j :: j in Live(q) <==> j in live
    ensures PendingFits(PendingSoon(q), live) && ClosedFits(q.closed, q.accepted, live)
    ensures q.lock != Free ==> q.lock.job in live
  {
    SameOwned(Live(q), live);
  }

  lemma TakeKeepsInv(q: Queue, w: Worker)
    requires Inv(q) && Working(q, w).None? && q.jobs != []
    ensures Inv(Step(q, Take(w)))
  {
    TakeMoves(q, w);
    SameJobs(q, Live(Step(q, Take(w))));
  }

  lemma FinishedKeepsInv(q: Queue, w: Worker)
    requires Inv(q) && Working(q, w).Some? && q.lock == Free
    ensures Inv(Step(q, Finish(w)))
  {
    var r, job := Step(q, Finish(w)), Working(q, w).value;
    if w == First {
      assert Live(r) == q.jobs + Held(q.second);
      FinishKeepsInv(q, q.jobs, job, Held(q.second), r);
    } else {
      assert Live(q) == q.jobs + Held(q.first) + [job] + [] && Live(r) == q.jobs + Held(q.first) + [];
      FinishKeepsInv(q, q.jobs + Held(q.first), job, [], r);
    }
  }

  // ---------------------------------------------------------------- whole runs

  function Run(events: seq<Event>): Queue {
    if events == [] then NEW_QUEUE else Step(Run(events[..|events| - 1]), events[|events| - 1])
  }

  lemma {:induction false} RunKeepsInv(events: seq<Event>)
    ensures Inv(Run(events))
    decreases |events|
  {
    if events == [] {
      assert Live(NEW_QUEUE) == [];
    } else {
      RunKeepsInv(events[..|events| - 1]);
      StepKeepsInv(Run(events[..|events| - 1]), events[|events| - 1]);
    }
  }

  lemma PathsSnoc(front: seq<Job>, last: Job)
    requires DistinctJobs(front + [last])
    ensures (set j | j in front + [last] :: j.path) == (set j | j in front :: j.path) + {last.path}
    ensures last.path !in set j | j in front :: j.path
  {
    forall j | j in front
      ensures j.path != last.path
    {
      var i :| 0 <= i < |front| && front[i] == j;
      assert (front + [last])[i] == j && (front + [last])[|front|] == last;
    }
    assert forall j :: j in front + [last] <==> j in front || j == last;
  }

  lemma {:induction false} PathsSize(live: seq<Job>)
    requires DistinctJobs(live)
    ensures |set j | j in live :: j.path| == |live|
  {
    if live != [] {
      var front, last := live[..|live| - 1], live[|live| - 1];
      assert live == front + [last];
      PathsSize(front);
      PathsSnoc(front, last);
    }
  }

  /**
   Whatever the interleaving: whenever nobody holds the lock, the pending paths are exactly
   those of the jobs queued or being converted, no path twice, and at most eighteen; and the
   channel of every accepted job is closed once, when its job is over, and not before.
   */
  lemma QueueIsSound(events: seq<Event>)
    ensures var q := Run(events);
            && DistinctJobs(Live(q)) && |Live(q)| <= MAX_PENDING
            && (q.lock == Free ==>
                  && (forall p :: p in q.pending <==> exists j :: IsLive(q, j) && j.path == p)
                  && (forall j :: IsLive(q, j) ==> j.path in q.pending && q.pending[j.path] == j.done)
                  && |q.pending| <= MAX_PENDING)
            && Distinct(q.closed)
            && (forall d: nat :: d in q.closed <==> d < q.accepted && !Owned(Live(q), d))
  {
    RunKeepsInv(events);
    var q := Run(events);
    forall j
      ensures IsLive(q, j) <==> j in Live(q)
    {
    }
    if q.lock == Free {
      PathsSize(Live(q));
      PendingPaths(q.pending, Live(q));
      forall p
        ensures p in q.pending <==> exists j :: IsLive(q, j) && j.path == p
      {
        if p in q.pending {
          assert Job(p, q.pending[p]) in Live(q);
          assert IsLive(q, Job(p, q.pending[p]));
        }
      }
    }
  }

  lemma PendingPaths(pending: map<Path, nat>, live: seq<Job>)
    requires PendingFits(pending, live)
    ensures |pending| == |set j | j in live :: j.path|
  {
    var paths := set j | j in live :: j.path;
    forall p
      ensures p in pending <==> p in paths
    {
      if p in pending {
        assert Job(p, pending[p]) in live;
      }
    }
    assert pending.Keys == paths && |pending| == |pending.Keys|;
  }

  /** A requester waits for the job of its own path, and never for one that is already over. */
  lemma GrantedIsOwn(events: seq<Event>, path: Path)
    requires Granted(Run(events), path, true).Some?
    ensures var q := Step(Run(events), Request(path, true));
            var d := Granted(Run(events), path, true).value;
            Job(path, d) in Live(q) && d !in q.closed
  {
    RunKeepsInv(events);
    var q := Run(events);
    StepKeepsInv(q, Request(path, true));
    var r := Step(q, Request(path, true));
    var d := Granted(q, path, true).value;
    assert Job(path, d) in Live(r) by {
      if path in q.pending {
        assert Job(path, q.pending[path]) in Live(q);
      } else {
        assert Job(path, d) in r.jobs;
      }
    }
    assert Owned(Live(r), d);
  }

  /**
   With the lock free, a conversion is refused exactly when sixteen jobs are queued and none that is
   queued or being converted is for this path; whoever asks for a path under way shares its channel,
   and any other gets a channel of its own.
   */
  lemma RefusedOnlyWhenFull(events: seq<Event>, path: Path)
    requires Run(events).lock == Free
    ensures var q := Run(events);
            && (Granted(q, path, true).None? <==> |q.jobs| >= 16 && forall j :: IsLive(q, j) ==> j.path != path)
            && (forall j :: IsLive(q, j) && j.path == path ==> Granted(q, path, true) == Some(j.done))
            && ((forall j :: IsLive(q, j) ==> j.path != path) && |q.jobs| < 16 ==>
                  Granted(q, path, true).Some? &&
                  var d := Granted(q, path, true).value;
                  && d !in q.closed && (forall j :: IsLive(q, j) ==> j.done != d)
                  && Step(q, Request(path, true)).jobs == q.jobs + [Job(path, d)])
    ensures Granted(Run(events), path, false).None? && Step(Run(events), Request(path, false)) == Run(events)
  {
    QueueIsSound(events);
    RunKeepsInv(events);
    var q := Run(events);
    assert forall j :: IsLive(q, j) ==> j in Live(q);
  }

  /** A worker or the requester that holds the lock goes on; nobody asks for anything. */
  predicate GoesOn(ev: Event) {
    !ev.Request?
  }

  function Burden(q: Queue): nat {
    2 * |q.jobs| + (if q.first.Some? then 1 else 0) + (if q.second.Some? then 1 else 0) + if q.lock == Free then 0 else 1
  }

  /**
   Nobody waits in vain: from every state that a run can reach, it only takes the workers and the
   requester that holds the lock going on for every channel handed out so far to be closed.
   */
  lemma {:induction false} AllGetDone(events: seq<Event>) returns (more: seq<Event>)
    ensures forall i :: 0 <= i < |more| ==> GoesOn(more[i])
    ensures var q := Run(events + more);
            && q.jobs == [] && q.first == None && q.second == None && q.lock == Free && q.pending == map[]
            && q.accepted == Run(events).accepted
            && forall d: nat :: d < q.accepted ==> d in q.closed
    decreases Burden(Run(events))
  {
    var q := Run(events);
    RunKeepsInv(events);
    if Burden(q) == 0 {
      more := [];
      assert events + more == events;
      NothingLeft(q);
    } else {
      var ev := if q.lock != Free then Record
                else if q.first.Some? then Finish(First)
                else if q.second.Some? then Finish(Second)
                else Take(First);
      RunSnoc(events, ev);
      hide Inv;
      var rest := AllGetDone(events + [ev]);
      more := [ev] + rest;
      assert events + [ev] + rest == events + more;
    }
  }

  lemma NothingLeft(q: Queue)
    requires Inv(q) && Burden(q) == 0
    ensures q.pending == map[] && forall d: nat :: d < q.accepted ==> d in q.closed
  {
    assert Live(q) == [];
    NothingPending(q.pending);
    assert forall d: nat :: !Owned(Live(q), d);
  }

  lemma NothingPending(pending: map<Path, nat>)
    requires PendingFits(pending, [])
    ensures pending == map[]
  {
    EachPendingIsLive(pending, []);
    assert forall p :: p !in pending;
  }

  lemma EachPendingIsLive(pending: map<Path, nat>, live: seq<Job>)
    requires PendingFits(pending, live)
    ensures forall p :: p in pending ==> exists j :: j in live && j.path == p
  {
    forall p | p in pending
      ensures exists j :: j in live && j.path == p
    {
      assert Job(p, pending[p]) in live;
    }
  }

  lemma RunSnoc(events: seq<Event>, ev: Event)
    ensures Run(events + [ev]) == Step(Run(events), ev)
  {
    assert (events + [ev])[..|events|] == events;
  }

  // ---------------------------------------------------------------- the object

  class ThumbVariantQueue {
    var pending: map<Path, nat>
    var jobs: seq<Job>
    var first: Option<Job>
    var second: Option<Job>
    ghost var lock: Lock
    var accepted: nat
    ghost var closed: seq<nat>

    ghost function Abs(): Queue
      reads this
    {
      Queue(pending, jobs, first, second, lock, accepted, closed)
    }

    constructor ()
      ensures Abs() == NEW_QUEUE
    {
      pending, jobs, first, second, lock, accepted, closed := map[], [], None, None, Free, 0, [];
    }

    /** Under the lock: a known job is shared, a full channel refuses, and otherwise the job is queued. */
    method QueueCardThumb(path: Path, convertible: bool) returns (done: Option<nat>, queued: Option<Job>)
      requires lock == Free
      modifies this
      ensures Abs() == Step(old(Abs()), Request(path, convertible))
      ensures done == Granted(old(Abs()), path, convertible)
      ensures queued.Some? <==> lock != Free
      ensures queued.Some? ==> lock == Queued(queued.value)
    {
      if !convertible {
        return None, None;
      }
      if path in pending {
        return Some(pending[path]), None;
      }
      if |jobs| >= JOBS_CAPACITY {
        return None, None;
      }
      var job := Job(path, accepted);
      accepted := accepted + 1;
      jobs := jobs + [job];
      lock := Queued(job);
      return Some(job.done), Some(job);
    }

    /** Still under the lock: the queued job is recorded, and the lock released. */
    method RecordPending(job: Job)
      requires lock == Queued(job)
      modifies this
      ensures Abs() == Step(old(Abs()), Record)
    {
      pending := pending[job.path := job.done];
      lock := Free;
    }

    method TakeJob(w: Worker)
      requires Working(Abs(), w).None? && jobs != []
      modifies this
      ensures Abs() == Step(old(Abs()), Take(w))
    {
      var job := jobs[0];
      jobs := jobs[1..];
      if w == First { first := Some(job); } else { second := Some(job); }
    }

    /** The conversion is over, well or not: under the lock, the path is forgotten and the channel closed. */
    method FinishJob(w: Worker)
      requires Inv(Abs()) && lock == Free && Working(Abs(), w).Some?
      modifies this
      ensures Abs() == Step(old(Abs()), Finish(w))
      ensures old(Working(Abs(), w).value.done !in closed)
    {
      var job := if w == First then first.value else second.value;
      assert job in Live(Abs()) && Owned(Live(Abs()), job.done);
      pending := pending - {job.path};
      closed := closed + [job.done];
      if w == First { first := None; } else { second := None; }
    }
  }
}
