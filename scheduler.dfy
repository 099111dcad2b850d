/** The main-thread `Handler` that drives the two periodic jobs of the activity:
    its queue of pending callbacks, `post`, `postDelayed`, `removeCallbacks`, and
    the looper taking the next due callback off the queue. Each job re-posts itself
    after doing its work, `onResume` posts both and `onPause` removes both. */
module Scheduler {

  /** The callbacks posted to the handler: the activity's two runnables, and
      callbacks of other code, told apart by a tag. */
  datatype Job = UpdateIp | CheckDockerApi | Foreign(tag: nat)

  predicate IsPeriodic(job: Job) {
    job.UpdateIp? || job.CheckDockerApi?
  }

  /** `IP_UPDATE_INTERVAL`: one minute. */
  const IpUpdateInterval: nat := 60000
  /** `DOCKER_CHECK_INTERVAL`: five seconds. */
  const DockerCheckInterval: nat := 5000

  /** The delay a periodic job re-posts itself with. */
  function Interval(job: Job): nat
    requires IsPeriodic(job)
  {
    if job.UpdateIp? then IpUpdateInterval else DockerCheckInterval
  }

  /** A callback waiting in the queue, with the clock time it becomes due. */
  datatype Pending = Pending(job: Job, due: nat)

  /** How many pending entries of `job` the queue holds. */
  function Count(q: seq<Pending>, job: Job): nat
  {
    if q == [] then 0 else (if q[0].job == job then 1 else 0) + Count(q[1..], job)
  }

  /** `removeCallbacks(job)`: every pending entry of `job` dropped, the rest kept in order. */
  function Removed(q: seq<Pending>, job: Job): seq<Pending>
  {
    if q == [] then []
    else (if q[0].job == job then [] else [q[0]]) + Removed(q[1..], job)
  }

  /** `i` is the entry the looper runs next: due no later than any other entry, and
      strictly earlier than every entry before it (ties run in posting order). */
  predicate IsEarliest(q: seq<Pending>, i: nat) {
    && i < |q|
    && (forall k :: 0 <= k < |q| ==> q[i].due <= q[k].due)
    && (forall k :: 0 <= k < i ==> q[i].due < q[k].due)
  }

  function EarliestIndex(q: seq<Pending>): (i: nat)
    requires q != []
    ensures IsEarliest(q, i)
  {
    if |q| == 1 then 0
    else
      var j := EarliestIndex(q[1..]) + 1;
      if q[0].due <= q[j].due then 0 else j
  }

  /** The queue with entry `i` taken off. */
  function Without(q: seq<Pending>, i: nat): seq<Pending>
    requires i < |q|
  {
    q[..i] + q[i + 1..]
  }

  /** The clock after the looper runs the next entry: that entry's due time, unless
      the clock is already past it. */
  function FireTime(q: seq<Pending>, now: nat): nat
    requires q != []
  {
    var due := q[EarliestIndex(q)].due;
    if now < due then due else now
  }

  /** The queue after the looper runs its next entry: a periodic job has re-posted
      itself with its interval, a foreign callback is simply gone. */
  function AfterFire(q: seq<Pending>, now: nat): seq<Pending>
    requires q != []
  {
    var i := EarliestIndex(q);
    var job := q[i].job;
    if IsPeriodic(job) then Without(q, i) + [Pending(job, FireTime(q, now) + Interval(job))]
    else Without(q, i)
  }

  /** `onResume`: `post(updateIpRunnable)` then `post(checkDockerApiRunnable)`. */
  function Resumed(q: seq<Pending>, now: nat): seq<Pending>
  {
    q + [Pending(UpdateIp, now), Pending(CheckDockerApi, now)]
  }

  /** `onPause`: both runnables removed. */
  function Paused(q: seq<Pending>): seq<Pending>
  {
    Removed(Removed(q, UpdateIp), CheckDockerApi)
  }

  class Handler {
    var queue: seq<Pending>
    /** The looper's clock, in milliseconds. */
    var now: nat

    constructor ()
      ensures queue == [] && now == 0
    {
      queue := [];
      now := 0;
    }

    /** `post(job)`: due at once, behind what is already due now. */
    method Post(job: Job)
      modifies this
      ensures queue == old(queue) + [Pending(job, now)] && now == old(now)
    {
      queue := queue + [Pending(job, now)];
    }

    /** `postDelayed(job, delayMs)`. */
    method PostDelayed(job: Job, delayMs: nat)
      modifies this
      ensures queue == old(queue) + [Pending(job, now + delayMs)] && now == old(now)
    {
      queue := queue + [Pending(job, now + delayMs)];
    }

    /** `removeCallbacks(job)`. */
    method RemoveCallbacks(job: Job)
      modifies this
      ensures queue == Removed(old(queue), job) && now == old(now)
    {
      queue := Removed(queue, job);
    }

    /** The looper's search for the entry to run next. */
    method NextIndex() returns (i: nat)
      requires queue != []
      ensures i == EarliestIndex(queue)
    {
      i := 0;
      var k := 1;
      while k < |queue|
        invariant i < k <= |queue|
        invariant forall m :: 0 <= m < k ==> queue[i].due <= queue[m].due
        invariant forall m :: 0 <= m < i ==> queue[i].due < queue[m].due
      {
        if queue[k].due < queue[i].due {
          i := k;
        }
        k := k + 1;
      }
      EarliestUnique(queue, i, EarliestIndex(queue));
    }

    /** Takes the next due entry off the queue, advances the clock to its due time
      and says which callback is to run. */
    method Fire() returns (job: Job)
      requires queue != []
      modifies this
      ensures job == old(queue)[EarliestIndex(old(queue))].job
      ensures queue == Without(old(queue), EarliestIndex(old(queue)))
      ensures now == FireTime(old(queue), old(now))
    {
      var i := NextIndex();
      job := queue[i].job;
      if now < queue[i].due {
        now := queue[i].due;
      }
      queue := Without(queue, i);
    }
  }

  /** The next entry to run is determined uniquely. */
  lemma EarliestUnique(q: seq<Pending>, i: nat, j: nat)
    requires IsEarliest(q, i) && IsEarliest(q, j)
    ensures i == j
  {
    assert q[i].due == q[j].due;
  }

  lemma {:induction false} CountAppend(a: seq<Pending>, b: seq<Pending>, job: Job)
    ensures Count(a + b, job) == Count(a, job) + Count(b, job)
  {
    if a == [] {
      assert a + b == b;
    } else {
      assert (a + b)[1..] == a[1..] + b;
      CountAppend(a[1..], b, job);
    }
  }

  /** Taking entry `i` off lowers the count of its own job by one and no other. */
  lemma CountWithout(q: seq<Pending>, i: nat, job: Job)
    requires i < |q|
    ensures Count(Without(q, i), job) == Count(q, job) - (if q[i].job == job then 1 else 0)
  {
    assert q == q[..i] + [q[i]] + q[i + 1..];
    CountAppend(q[..i] + [q[i]], q[i + 1..], job);
    CountAppend(q[..i], [q[i]], job);
    CountAppend(q[..i], q[i + 1..], job);
  }

  /** `removeCallbacks` leaves no entry of its job and the count of every other job
      as it was. */
  lemma {:induction false} RemovedCount(q: seq<Pending>, job: Job, other: Job)
    ensures Count(Removed(q, job), other) == if other == job then 0 else Count(q, other)
  {
    if q != [] {
      RemovedCount(q[1..], job, other);
      CountAppend(if q[0].job == job then [] else [q[0]], Removed(q[1..], job), other);
    }
  }

  /** `removeCallbacks` keeps exactly the entries of other jobs. */
  lemma {:induction false} RemovedMembers(q: seq<Pending>, job: Job)
    ensures forall e :: e in Removed(q, job) <==> e in q && e.job != job
  {
    if q != [] {
      RemovedMembers(q[1..], job);
      assert forall e :: e in q <==> e == q[0] || e in q[1..];
    }
  }

  /** `removeCallbacks` works piecewise, so the entries it keeps stay in posting order. */
  lemma {:induction false} RemovedAppend(a: seq<Pending>, b: seq<Pending>, job: Job)
    ensures Removed(a + b, job) == Removed(a, job) + Removed(b, job)
  {
    if a == [] {
      assert a + b == b;
    } else {
      assert (a + b)[1..] == a[1..] + b;
      RemovedAppend(a[1..], b, job);
    }
  }

  /** Running the next entry keeps one pending entry per periodic job (it removes
      one and re-posts one); a foreign callback that ran is gone. */
  lemma FireCounts(q: seq<Pending>, now: nat, job: Job)
    requires q != []
    ensures var fired := q[EarliestIndex(q)].job;
      Count(AfterFire(q, now), job) == Count(q, job) - (if fired == job && !IsPeriodic(job) then 1 else 0)
  {
    var i := EarliestIndex(q);
    CountWithout(q, i, job);
    if IsPeriodic(q[i].job) {
      CountAppend(Without(q, i), [Pending(q[i].job, FireTime(q, now) + Interval(q[i].job))], job);
    }
  }

  /** A periodic job that runs re-posts itself for exactly its interval after it ran. */
  lemma FireRearms(q: seq<Pending>, now: nat)
    requires q != [] && IsPeriodic(q[EarliestIndex(q)].job)
    ensures var job := q[EarliestIndex(q)].job;
      && AfterFire(q, now)[|AfterFire(q, now)| - 1] == Pending(job, FireTime(q, now) + Interval(job))
      && (job == UpdateIp ==> Interval(job) == 60000)
      && (job == CheckDockerApi ==> Interval(job) == 5000)
      && FireTime(q, now) >= now
  {
  }

  /** `onResume` adds one entry, due at once, for each runnable and nothing else. */
  lemma ResumedCounts(q: seq<Pending>, now: nat, job: Job)
    ensures Count(Resumed(q, now), job) == Count(q, job) + (if IsPeriodic(job) then 1 else 0)
  {
    var added := [Pending(UpdateIp, now), Pending(CheckDockerApi, now)];
    CountAppend(q, added, job);
    var last := [Pending(CheckDockerApi, now)];
    assert added[1..] == last && last[1..] == [];
    assert Count(last, job) == if job == CheckDockerApi then 1 else 0;
    assert Count(added, job) == if IsPeriodic(job) then 1 else 0;
  }

  /** After `onPause` neither runnable is pending, and other entries are untouched:
      every foreign entry stays, with as many copies as before. */
  lemma PausedClears(q: seq<Pending>, job: Job)
    ensures Count(Paused(q), job) == if IsPeriodic(job) then 0 else Count(q, job)
    ensures forall e :: e in Paused(q) <==> e in q && !IsPeriodic(e.job)
  {
    RemovedCount(q, UpdateIp, job);
    RemovedCount(Removed(q, UpdateIp), CheckDockerApi, job);
    RemovedMembers(q, UpdateIp);
    RemovedMembers(Removed(q, UpdateIp), CheckDockerApi);
  }

  /** `onPause` works piecewise, so the foreign entries it keeps stay in posting order. */
  lemma PausedAppend(a: seq<Pending>, b: seq<Pending>)
    ensures Paused(a + b) == Paused(a) + Paused(b)
  {
    RemovedAppend(a, b, UpdateIp);
    RemovedAppend(Removed(a, UpdateIp), Removed(b, UpdateIp), CheckDockerApi);
  }

  /** The lifecycle invariant: while resumed each runnable has exactly one pending
      entry, while paused none. */
  predicate Scheduled(q: seq<Pending>, resumed: bool) {
    var n := if resumed then 1 else 0;
    Count(q, UpdateIp) == n && Count(q, CheckDockerApi) == n
  }

  /** Alternating `onResume` and `onPause`, with the looper running entries in
      between, never leaves two pending entries of one runnable. */
  lemma LifecycleKeepsOnePending(q: seq<Pending>, now: nat, resumed: bool)
    ensures Scheduled(Paused(q), false)
    ensures Scheduled(q, false) ==> Scheduled(Resumed(q, now), true)
    ensures q != [] && Scheduled(q, resumed) ==> Scheduled(AfterFire(q, now), resumed)
  {
    PausedClears(q, UpdateIp);
    PausedClears(q, CheckDockerApi);
    ResumedCounts(q, now, UpdateIp);
    ResumedCounts(q, now, CheckDockerApi);
    if q != [] {
      FireCounts(q, now, UpdateIp);
      FireCounts(q, now, CheckDockerApi);
    }
  }

  /** Once paused, neither runnable is ever run again until the next `onResume`. */
  lemma PausedNeverFires(q: seq<Pending>, now: nat)
    requires q != [] && Scheduled(q, false)
    ensures !IsPeriodic(q[EarliestIndex(q)].job)
    ensures Scheduled(AfterFire(q, now), false)
  {
    var i := EarliestIndex(q);
    CountWithout(q, i, q[i].job);
    LifecycleKeepsOnePending(q, now, false);
  }

  /** `onResume` has no guard against an earlier `onResume`: a second one without an
      `onPause` in between leaves two pending entries of each runnable. */
  lemma ResumeTwiceDuplicates(q: seq<Pending>, now: nat)
    requires Scheduled(q, true)
    ensures Count(Resumed(q, now), UpdateIp) == 2 && Count(Resumed(q, now), CheckDockerApi) == 2
  {
    ResumedCounts(q, now, UpdateIp);
    ResumedCounts(q, now, CheckDockerApi);
  }
}
