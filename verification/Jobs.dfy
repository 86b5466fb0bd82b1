// The job table and what each SQL statement of the queue does to it.
module Jobs {
  import opened Options

  datatype Status = QUEUED | RUNNING | DONE | FAILED | CANCELLED

  // What the error column tells apart.
  datatype Reason = NoError | RunError | Requeued | Superseded | OutOfAttempts

  type Kind = string

  datatype Job = Job(kind: Kind, status: Status, slot: Option<string>, attempts: nat, maxAttempts: nat,
                     worker: Option<string>, created: nat, heartbeat: nat, error: Reason)

  // An execution record a job has opened; attempt tells which claim of the job opened it.
  datatype Run = Run(job: nat, attempt: nat, open: bool)

  // Times are seconds.
  datatype Db = Db(jobs: map<nat, Job>, next: nat, runs: seq<Run>, now: nat)

  const CALC: Kind := "calc"
  const STALE_S: nat := 600
  const DEFAULT_MAX_ATTEMPTS: nat := 2

  predicate Terminal(st: Status) {
    st == DONE || st == FAILED || st == CANCELLED
  }

  // ---------------------------------------------------------------- enqueue

  predicate IsQueued(jobs: map<nat, Job>, kind: Kind) {
    exists i :: i in jobs && jobs[i].status == QUEUED && jobs[i].kind == kind
  }

  predicate SlotTaken(jobs: map<nat, Job>, slot: Option<string>) {
    slot.Some? && exists i :: i in jobs && jobs[i].slot == slot
  }

  // One of the two unique indexes refuses the row.
  predicate Conflicts(jobs: map<nat, Job>, kind: Kind, slot: Option<string>) {
    IsQueued(jobs, kind) || SlotTaken(jobs, slot)
  }

  function NewJob(kind: Kind, slot: Option<string>, now: nat): Job {
    Job(kind, QUEUED, slot, 0, DEFAULT_MAX_ATTEMPTS, None, now, 0, NoError)
  }

  function Inserted(db: Db, kind: Kind, slot: Option<string>): Db {
    db.(jobs := db.jobs[db.next := NewJob(kind, slot, db.now)], next := db.next + 1)
  }

  // ---------------------------------------------------------------- claim

  predicate IsRunning(jobs: map<nat, Job>, kind: Kind) {
    exists i :: i in jobs && jobs[i].status == RUNNING && jobs[i].kind == kind
  }

  predicate Claimable(jobs: map<nat, Job>, kinds: Option<set<Kind>>, id: nat) {
    && id in jobs
    && jobs[id].status == QUEUED
    && (kinds.Some? ==> jobs[id].kind in kinds.value)
    && !IsRunning(jobs, jobs[id].kind)
  }

  predicate Earlier(jobs: map<nat, Job>, i: nat, j: nat)
    requires i in jobs && j in jobs
  {
    jobs[i].created < jobs[j].created || (jobs[i].created == jobs[j].created && i <= j)
  }

  // The time a job was put into the queue decides, and its number among those of one time.
  ghost predicate IsOldest(jobs: map<nat, Job>, kinds: Option<set<Kind>>, id: nat) {
    && Claimable(jobs, kinds, id)
    && forall j :: Claimable(jobs, kinds, j) ==>
         jobs[id].created <= jobs[j].created && (jobs[id].created == jobs[j].created ==> id <= j)
  }

  function Claimed(db: Db, id: nat, worker: string): Db
    requires id in db.jobs
  {
    var j := db.jobs[id];
    db.(jobs := db.jobs[id := j.(status := RUNNING, heartbeat := db.now, attempts := j.attempts + 1,
                                 worker := Some(worker), error := NoError)])
  }

  // ---------------------------------------------------------------- heartbeat, finish, cancel

  // With a worker's name the row must still be that worker's; without one (administration) only its status counts.
  predicate Owned(jobs: map<nat, Job>, id: nat, worker: Option<string>) {
    id in jobs && jobs[id].status == RUNNING && (worker.None? || jobs[id].worker == worker)
  }

  function Beaten(db: Db, id: nat, worker: Option<string>): Db {
    if Owned(db.jobs, id, worker) then db.(jobs := db.jobs[id := db.jobs[id].(heartbeat := db.now)]) else db
  }

  function Finished(db: Db, id: nat, worker: Option<string>, ok: bool): Db {
    if Owned(db.jobs, id, worker)
    then db.(jobs := db.jobs[id := db.jobs[id].(status := if ok then DONE else FAILED, error := if ok then NoError else RunError)])
    else db
  }

  function Cancelled(db: Db, id: nat): Db {
    if id in db.jobs && db.jobs[id].status == QUEUED
    then db.(jobs := db.jobs[id := db.jobs[id].(status := CANCELLED)])
    else db
  }

  function ClosedRuns(runs: seq<Run>, ids: set<nat>): seq<Run> {
    seq(|runs|, i requires 0 <= i < |runs| => if runs[i].open && runs[i].job in ids then runs[i].(open := false) else runs[i])
  }

  // ---------------------------------------------------------------- reap: three statements in one transaction

  // The transaction sees the committed rows under its own changes. now() is the time it began;
  // seen is the number of rows ever inserted when its first statement ran.
  datatype Txn = Txn(at: nat, stage: nat, seen: nat, own: map<nat, Job>)

  function Merged(jobs: map<nat, Job>, own: map<nat, Job>): map<nat, Job> {
    jobs + own
  }

  predicate Stale(j: Job, at: nat) {
    j.status == RUNNING && j.heartbeat + STALE_S < at
  }

  // Statement 1: a stale job whose kind is already queued again is given up in favour of that one.
  function Superseding(view: map<nat, Job>, at: nat): map<nat, Job> {
    map i | i in view && Stale(view[i], at) && IsQueued(view, view[i].kind) :: view[i].(status := FAILED, error := Superseded)
  }

  // Statement 2: the other stale jobs with attempts left go back to the queue.
  function Requeueing(view: map<nat, Job>, at: nat): map<nat, Job> {
    map i | i in view && Stale(view[i], at) && view[i].attempts < view[i].maxAttempts ::
      view[i].(status := QUEUED, worker := None, error := Requeued)
  }

  // Statement 3: what is still stale has failed.
  function Expiring(view: map<nat, Job>, at: nat): map<nat, Job> {
    map i | i in view && Stale(view[i], at) :: view[i].(status := FAILED, error := OutOfAttempts)
  }

  ghost predicate OneQueuedPerKind(jobs: map<nat, Job>) {
    forall i, j :: i in jobs && j in jobs && jobs[i].status == QUEUED && jobs[j].status == QUEUED && jobs[i].kind == jobs[j].kind
      ==> i == j
  }

  ghost predicate OneRunningPerKind(jobs: map<nat, Job>) {
    forall i, j :: i in jobs && j in jobs && jobs[i].status == RUNNING && jobs[j].status == RUNNING && jobs[i].kind == jobs[j].kind
      ==> i == j
  }

  ghost predicate OneJobPerSlot(jobs: map<nat, Job>) {
    forall i, j :: i in jobs && j in jobs && jobs[i].slot.Some? && jobs[i].slot == jobs[j].slot ==> i == j
  }

  function Committed(db: Db, own: map<nat, Job>): Db {
    db.(jobs := Merged(db.jobs, own), runs := ClosedRuns(db.runs, own.Keys))
  }

  function OwnOf(jobs: map<nat, Job>, now: nat): map<nat, Job> {
    var own1 := Superseding(jobs, now);
    var own2 := own1 + Requeueing(Merged(jobs, own1), now);
    own2 + Expiring(Merged(jobs, own2), now)
  }

  // The three statements run one after the other, nothing slipping in between.
  function Reaped(db: Db): Db {
    Committed(db, OwnOf(db.jobs, db.now))
  }

  // What becomes of one row, told by cases.
  function Outcome(jobs: map<nat, Job>, i: nat, now: nat): Job
    requires i in jobs
  {
    var j := jobs[i];
    if !Stale(j, now) then j
    else if IsQueued(jobs, j.kind) then j.(status := FAILED, error := Superseded)
    else if j.attempts < j.maxAttempts then j.(status := QUEUED, worker := None, error := Requeued)
    else j.(status := FAILED, error := OutOfAttempts)
  }

  function StaleRows(jobs: map<nat, Job>, now: nat): set<nat> {
    set i | i in jobs && Stale(jobs[i], now)
  }

  // The statements touch every stale row and no other.
  lemma OwnIsStale(jobs: map<nat, Job>, now: nat)
    ensures OwnOf(jobs, now).Keys == StaleRows(jobs, now)
  {
    var own1 := Superseding(jobs, now);
    var own2 := own1 + Requeueing(Merged(jobs, own1), now);
    forall i | i in jobs && Stale(jobs[i], now) ensures i in OwnOf(jobs, now) {
      if i !in own1 && i !in own2 {
        assert Merged(jobs, own2)[i] == jobs[i];
      }
    }
  }

  lemma OwnIsOutcome(jobs: map<nat, Job>, now: nat, i: nat)
    requires i in OwnOf(jobs, now)
    ensures i in jobs && OwnOf(jobs, now)[i] == Outcome(jobs, i, now)
  {
    OwnIsStale(jobs, now);
  }

  // The statements agree with the cases: every stale job meets exactly one of them, every other row is left alone, and the
  // records closed are exactly those of the stale jobs.
  lemma ReapedByCases(db: Db)
    ensures Reaped(db).jobs.Keys == db.jobs.Keys
    ensures forall i :: i in db.jobs ==> Reaped(db).jobs[i] == Outcome(db.jobs, i, db.now)
    ensures Reaped(db).runs == ClosedRuns(db.runs, StaleRows(db.jobs, db.now))
    ensures Reaped(db).next == db.next && Reaped(db).now == db.now
  {
    hide OwnOf, IsQueued;
    OwnIsStale(db.jobs, db.now);
    forall i | i in db.jobs ensures Reaped(db).jobs[i] == Outcome(db.jobs, i, db.now) {
      if i in OwnOf(db.jobs, db.now) {
        OwnIsOutcome(db.jobs, db.now, i);
      }
    }
  }

  // The stale rows that go back to the queue.
  function Returning(jobs: map<nat, Job>, now: nat): set<nat> {
    set i | i in jobs && Stale(jobs[i], now) && Outcome(jobs, i, now).status == QUEUED
  }

  lemma BackIsReturning(jobs: map<nat, Job>, now: nat)
    ensures Requeueing(Merged(jobs, Superseding(jobs, now)), now).Keys == Returning(jobs, now)
  {
  }

  lemma StatementsDisjoint(jobs: map<nat, Job>, now: nat)
    ensures var own1 := Superseding(jobs, now);
            var back := Requeueing(Merged(jobs, own1), now);
            var late := Expiring(Merged(jobs, own1 + back), now);
            own1.Keys !! back.Keys !! late.Keys
  {
  }

  // The numbers of rows the three statements report: the second counts the rows requeued, the first and third the others.
  lemma ReapCounts(jobs: map<nat, Job>, now: nat)
    ensures var own1 := Superseding(jobs, now);
            var back := Requeueing(Merged(jobs, own1), now);
            var late := Expiring(Merged(jobs, own1 + back), now);
            |back| == |Returning(jobs, now)| && |own1| + |back| + |late| == |StaleRows(jobs, now)|
  {
    hide Superseding, Requeueing, Expiring, StaleRows, Returning;
    var own1 := Superseding(jobs, now);
    var back := Requeueing(Merged(jobs, own1), now);
    var late := Expiring(Merged(jobs, own1 + back), now);
    BackIsReturning(jobs, now);
    StatementsDisjoint(jobs, now);
    OwnIsStale(jobs, now);
    assert own1.Keys + back.Keys + late.Keys == OwnOf(jobs, now).Keys;
    assert |own1.Keys + back.Keys + late.Keys| == |own1.Keys| + |back.Keys| + |late.Keys|;
  }

  lemma ReapedKeepsSlots(db: Db)
    requires OneJobPerSlot(db.jobs)
    ensures OneJobPerSlot(Reaped(db).jobs)
  {
    hide Reaped, IsQueued;
    ReapedByCases(db);
    assert forall i :: i in db.jobs ==> Outcome(db.jobs, i, db.now).slot == db.jobs[i].slot;
  }

  lemma OutcomesDiffer(jobs: map<nat, Job>, now: nat, i: nat, j: nat)
    requires OneQueuedPerKind(jobs) && OneRunningPerKind(jobs)
    requires i in jobs && j in jobs && jobs[i].kind == jobs[j].kind
    requires Outcome(jobs, i, now).status == Outcome(jobs, j, now).status
    requires Outcome(jobs, i, now).status == QUEUED || Outcome(jobs, i, now).status == RUNNING
    ensures i == j
  {
  }

  // Alone, the transaction never breaks the rule of one queued job per kind.
  lemma ReapedAloneIsSafe(db: Db)
    requires OneQueuedPerKind(db.jobs) && OneRunningPerKind(db.jobs)
    ensures OneQueuedPerKind(Reaped(db).jobs) && OneRunningPerKind(Reaped(db).jobs)
  {
    hide Reaped;
    ReapedByCases(db);
    var jobs := Reaped(db).jobs;
    forall i, j | i in jobs && j in jobs && jobs[i].status == jobs[j].status && jobs[i].kind == jobs[j].kind
                  && (jobs[i].status == QUEUED || jobs[i].status == RUNNING)
      ensures i == j
    {
      OutcomesDiffer(db.jobs, db.now, i, j);
    }
  }
}
