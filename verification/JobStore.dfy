// The queue functions, each one transaction on the job table.
module JobStore {
  import opened Jobs
  import opened Options

  datatype EnqueueResult = Queued(id: nat) | Conflict(active: Option<nat>)

  class Store {
    var jobs: map<nat, Job>
    var next: nat
    var runs: seq<Run>
    var now: nat

    ghost predicate Valid()
      reads this
    {
      && (forall i :: i in jobs ==> i < next)
      && OneQueuedPerKind(jobs)
      && OneRunningPerKind(jobs)
      && OneJobPerSlot(jobs)
    }

    function View(): Db
      reads this
    {
      Db(jobs, next, runs, now)
    }

    constructor ()
      ensures Valid() && View() == Db(map[], 1, [], 0)
    {
      jobs, next, runs, now := map[], 1, [], 0;
    }

    // The queued job of the kind, if there is one.
    method Active(kind: Kind) returns (r: Option<nat>)
      requires Valid()
      ensures r.Some? <==> IsQueued(jobs, kind)
      ensures r.Some? ==> r.value in jobs && jobs[r.value].status == QUEUED && jobs[r.value].kind == kind
      ensures r.None? ==> forall i :: i in jobs ==> !(jobs[i].status == QUEUED && jobs[i].kind == kind)
    {
      r := None;
      var i := 0;
      while i < next
        invariant 0 <= i <= next
        invariant forall j :: 0 <= j < i && j in jobs ==> !(jobs[j].status == QUEUED && jobs[j].kind == kind)
      {
        if i in jobs && jobs[i].status == QUEUED && jobs[i].kind == kind {
          return Some(i);
        }
        i := i + 1;
      }
    }

    method Enqueue(kind: Kind, slot: Option<string>) returns (r: EnqueueResult)
      requires Valid()
      modifies this`jobs, this`next
      ensures Valid()
      ensures r.Conflict? <==> Conflicts(old(jobs), kind, slot)
      ensures r.Conflict? <==> (exists i :: i in old(jobs) && old(jobs)[i].status == QUEUED && old(jobs)[i].kind == kind)
                               || (slot.Some? && exists i :: i in old(jobs) && old(jobs)[i].slot == slot)
      ensures r.Queued? ==> r.id == old(next) && View() == Inserted(old(View()), kind, slot)
      ensures r.Queued? ==> jobs == old(jobs)[r.id := Job(kind, QUEUED, slot, 0, 2, None, now, 0, NoError)]
      ensures r.Conflict? ==> View() == old(View()) && (r.active.Some? <==> IsQueued(jobs, kind))
    {
      if Conflicts(jobs, kind, slot) {
        var a := Active(kind);
        return Conflict(a);
      }
      r := Queued(next);
      jobs, next := jobs[next := NewJob(kind, slot, now)], next + 1;
    }

    // Does nothing when either index refuses the row; a running job of the kind does not stand in the way.
    method TryEnqueueSlot(kind: Kind, slot: string) returns (r: Option<nat>)
      requires Valid()
      modifies this`jobs, this`next
      ensures Valid()
      ensures r.None? <==> Conflicts(old(jobs), kind, Some(slot))
      ensures r.None? <==> (exists i :: i in old(jobs) && old(jobs)[i].status == QUEUED && old(jobs)[i].kind == kind)
                           || (exists i :: i in old(jobs) && old(jobs)[i].slot == Some(slot))
      ensures View() == if r.None? then old(View()) else Inserted(old(View()), kind, Some(slot))
      ensures r.Some? ==> r.value == old(next)
      ensures r.Some? ==> jobs == old(jobs)[r.value := Job(kind, QUEUED, Some(slot), 0, 2, None, now, 0, NoError)]
    {
      if Conflicts(jobs, kind, Some(slot)) {
        return None;
      }
      r := Some(next);
      jobs, next := jobs[next := NewJob(kind, Some(slot), now)], next + 1;
    }

    // The job that has waited longest among those of the lane whose kind is not running.
    method Claim(worker: string, kinds: Option<set<Kind>>) returns (r: Option<nat>)
      requires Valid()
      modifies this`jobs
      ensures Valid()
      ensures r.None? ==> View() == old(View()) && forall i :: !Claimable(jobs, kinds, i)
      ensures r.Some? ==> IsOldest(old(jobs), kinds, r.value) && View() == Claimed(old(View()), r.value, worker)
      ensures r.Some? ==> r.value in old(jobs) && Waits(old(jobs), kinds, r.value)
      ensures r.Some? ==> forall j :: Waits(old(jobs), kinds, j) ==>
                old(jobs)[r.value].created <= old(jobs)[j].created
                && (old(jobs)[r.value].created == old(jobs)[j].created ==> r.value <= j)
      ensures r.None? ==> forall j :: !Waits(old(jobs), kinds, j)
      ensures r.Some? ==>
                var was, after := old(jobs)[r.value], jobs[r.value];
                && after == Job(was.kind, RUNNING, was.slot, was.attempts + 1, was.maxAttempts, Some(worker), was.created, now, NoError)
                && jobs == old(jobs)[r.value := after]
    {
      hide Waits, IsRunning, OneQueuedPerKind, OneRunningPerKind, OneJobPerSlot;
      WaitsIsClaimable(jobs, kinds);
      r := None;
      var i := 0;
      while i < next
        invariant 0 <= i <= next
        invariant r.None? ==> forall j :: 0 <= j < i ==> !Claimable(jobs, kinds, j)
        invariant r.Some? ==> Claimable(jobs, kinds, r.value)
                              && forall j :: 0 <= j < i && Claimable(jobs, kinds, j) ==> Earlier(jobs, r.value, j)
      {
        if Claimable(jobs, kinds, i) && (r.None? || !Earlier(jobs, r.value, i)) {
          r := Some(i);
        }
        i := i + 1;
      }
      if r.Some? {
        ClaimKeepsRules(View(), kinds, r.value, worker);
        var j := jobs[r.value];
        jobs := jobs[r.value := j.(status := RUNNING, heartbeat := now, attempts := j.attempts + 1, worker := Some(worker),
                                   error := NoError)];
      }
    }

    // An owned job is safe from the reaper for the next ten minutes; no other row changes.
    method Heartbeat(id: nat, worker: Option<string>)
      requires Valid()
      modifies this`jobs
      ensures Valid() && View() == Beaten(old(View()), id, worker)
      ensures Owned(old(jobs), id, worker) ==> id in jobs && forall t: nat :: t <= now + STALE_S ==> !Stale(jobs[id], t)
      ensures jobs.Keys == old(jobs).Keys && forall i :: i in jobs && i != id ==> jobs[i] == old(jobs)[i]
    {
      if id in jobs && jobs[id].status == RUNNING && (worker.None? || jobs[id].worker == worker) {
        jobs := jobs[id := jobs[id].(heartbeat := now)];
      }
    }

    // Once an end is reported, further reports by the same worker change nothing.
    method Finish(id: nat, ok: bool, worker: Option<string>) returns (written: bool)
      requires Valid()
      modifies this`jobs
      ensures Valid() && View() == Finished(old(View()), id, worker, ok)
      ensures written <==> Owned(old(jobs), id, worker)
      ensures written ==> id in jobs && jobs[id].status == if ok then DONE else FAILED
      ensures !Owned(jobs, id, worker)
    {
      written := id in jobs && jobs[id].status == RUNNING && (worker.None? || jobs[id].worker == worker);
      if written {
        jobs := jobs[id := jobs[id].(status := if ok then DONE else FAILED, error := if ok then NoError else RunError)];
      }
    }

    // Afterwards no lane can claim the job, unless it was running and is put back.
    method Cancel(id: nat) returns (done: bool)
      requires Valid()
      modifies this`jobs
      ensures Valid() && View() == Cancelled(old(View()), id)
      ensures done <==> View() != old(View())
      ensures done <==> id in old(jobs) && old(jobs)[id].status == QUEUED
      ensures done ==> jobs == old(jobs)[id := old(jobs)[id].(status := CANCELLED)]
      ensures forall kinds :: !Claimable(jobs, kinds, id)
    {
      done := id in jobs && jobs[id].status == QUEUED;
      if done {
        jobs := jobs[id := jobs[id].(status := CANCELLED)];
      }
    }

    method CloseRuns(ids: set<nat>) returns (n: nat)
      modifies this`runs
      ensures View() == old(View()).(runs := ClosedRuns(old(runs), ids))
      ensures n == OpenOf(old(runs), ids) && OpenOf(runs, ids) == 0
      ensures |runs| == |old(runs)| && forall i :: 0 <= i < |runs| ==>
                runs[i] == Run(old(runs)[i].job, old(runs)[i].attempt, old(runs)[i].open && old(runs)[i].job !in ids)
    {
      n := 0;
      var i := 0;
      var before := runs;
      while i < |before|
        invariant 0 <= i <= |before| == |runs|
        invariant forall j :: 0 <= j < |before| ==> runs[j] == if j < i then ClosedRuns(before, ids)[j] else before[j]
        invariant n == OpenOf(before[..i], ids)
      {
        assert before[..i + 1][..i] == before[..i];
        if runs[i].open && runs[i].job in ids {
          runs := runs[i := runs[i].(open := false)];
          n := n + 1;
        }
        i := i + 1;
      }
      assert before[..i] == before && runs == ClosedRuns(before, ids);
      NoneLeftOpen(before, ids);
    }

    // Everything in one transaction with no other in between.
    method Reap() returns (requeued: nat, failed: nat)
      requires Valid()
      modifies this`jobs, this`runs
      ensures Valid() && View() == Reaped(old(View()))
      ensures requeued == |Returning(old(jobs), now)| && requeued + failed == |StaleRows(old(jobs), now)|
      ensures jobs.Keys == old(jobs).Keys && forall i :: i in jobs ==> ReapedTo(old(jobs), i, now, jobs[i])
    {
      hide Requeueing, Superseding, Expiring, Returning, StaleRows, ClosedRuns, OneQueuedPerKind, OneRunningPerKind, OneJobPerSlot,
        Outcome, OpenOf, ReapedTo;
      ghost var before := View();
      ReapedAloneIsSafe(before);
      ReapedKeepsSlots(before);
      ReapedByCases(before);
      ReapCounts(jobs, now);
      forall i | i in jobs ensures ReapedTo(jobs, i, now, Outcome(jobs, i, now)) {
        OutcomeIsReapedTo(jobs, i, now);
      }
      var superseded := Superseding(jobs, now);
      var back := Requeueing(Merged(jobs, superseded), now);
      var own := superseded + back;
      var late := Expiring(Merged(jobs, own), now);
      own := own + late;
      requeued, failed := |back|, |superseded| + |late|;
      jobs := Merged(jobs, own);
      var _ := CloseRuns(own.Keys);
    }
  }

  // A lane of these kinds may take the job: it is queued and no job of its kind is running.
  ghost predicate Waits(jobs: map<nat, Job>, kinds: Option<set<Kind>>, id: nat) {
    && id in jobs && jobs[id].status == QUEUED
    && (kinds == None || jobs[id].kind in kinds.value)
    && forall i :: i in jobs && jobs[i].kind == jobs[id].kind ==> jobs[i].status != RUNNING
  }

  lemma ClaimKeepsRules(db: Db, kinds: Option<set<Kind>>, id: nat, worker: string)
    requires OneQueuedPerKind(db.jobs) && OneRunningPerKind(db.jobs) && OneJobPerSlot(db.jobs) && Claimable(db.jobs, kinds, id)
    ensures var after := Claimed(db, id, worker).jobs;
            OneQueuedPerKind(after) && OneRunningPerKind(after) && OneJobPerSlot(after)
  {
  }

  lemma WaitsIsClaimable(jobs: map<nat, Job>, kinds: Option<set<Kind>>)
    ensures forall id :: Waits(jobs, kinds, id) <==> Claimable(jobs, kinds, id)
  {
  }

  // What the reaper makes of a row: a running one without a heartbeat for more than 600 seconds is given up if another of its kind
  // is queued, goes back to the queue if it has attempts left, and has failed otherwise; every other row stays.
  ghost predicate ReapedTo(jobs: map<nat, Job>, i: nat, now: nat, j': Job)
    requires i in jobs
  {
    var j := jobs[i];
    if j.status != RUNNING || j.heartbeat + 600 >= now then j' == j
    else if exists q :: q in jobs && jobs[q].status == QUEUED && jobs[q].kind == j.kind then
      j' == j.(status := FAILED, error := Superseded)
    else if j.attempts < j.maxAttempts then j' == j.(status := QUEUED, worker := None, error := Requeued)
    else j' == j.(status := FAILED, error := OutOfAttempts)
  }

  lemma OutcomeIsReapedTo(jobs: map<nat, Job>, i: nat, now: nat)
    requires i in jobs
    ensures ReapedTo(jobs, i, now, Outcome(jobs, i, now))
  {
  }

  function OpenOf(runs: seq<Run>, ids: set<nat>): nat {
    if runs == [] then 0
    else OpenOf(runs[..|runs| - 1], ids) + if runs[|runs| - 1].open && runs[|runs| - 1].job in ids then 1 else 0
  }

  lemma {:induction false} NoneLeftOpen(runs: seq<Run>, ids: set<nat>)
    ensures OpenOf(ClosedRuns(runs, ids), ids) == 0
  {
    if runs != [] {
      assert ClosedRuns(runs, ids)[..|runs| - 1] == ClosedRuns(runs[..|runs| - 1], ids);
      NoneLeftOpen(runs[..|runs| - 1], ids);
    }
  }
}
