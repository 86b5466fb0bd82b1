// Everything that can happen to the queue and its workers, in any order, and what holds in every reachable state.
module JobRuns {
  import opened Jobs
  import opened Options

  // What one lane of a worker is doing. The attempt is the one it claimed.
  datatype Phase =
    | Working
    | Collected(version: nat)     // changed data is committed; the recalculation is still to be chained
    | Chained(version: nat)       // the recalculation is queued, or one already was
    | Closing                     // the failed job was still its own; its open records are still to be closed

  datatype Lane = Idle | Busy(job: nat, attempt: nat, phase: Phase)

  // data counts the commits of changed data. left is, for every job that ever left the queue, the value of data when it last
  // did. owed are the commits whose collection job was recorded DONE.
  datatype Sys = Sys(db: Db, reap: Option<Txn>, lanes: map<string, Lane>, data: nat, left: map<nat, nat>, owed: set<nat>) {
    function Lane(w: string): Lane {
      if w in lanes then lanes[w] else Idle
    }

    function Own(): map<nat, Job> {
      if reap.Some? then reap.value.own else map[]
    }
  }

  const INIT: Sys := Sys(Db(map[], 1, [], 0), None, map[], 0, map[], {})

  datatype Action =
    | Tick(seconds: nat)
    | Enqueue(kind: Kind, slot: Option<string>)
    | Claim(w: string, kinds: Option<set<Kind>>, id: nat)
    | Beat(w: string, id: nat, attempt: nat)    // sent by w while it worked at that attempt, and perhaps late
    | OpenRun(w: string)
    | EndRun(i: nat)
    | Collect(w: string)
    | CommitAside                               // changed data from where nobody will chain: a job told not to recalculate,
                                                // or a child process that has outlived its worker
    | Chain(w: string)
    | FinishOk(w: string)
    | FinishFail(w: string)
    | CloseRuns(w: string)
    | Crash(w: string)
    | Cancel(id: nat)
    | ReapSupersede
    | ReapRequeue
    | ReapExpire
    | ReapCommit
    | ReapLost

  // A row the reaper has changed but not committed cannot be changed by others, and a kind it has requeued cannot be inserted,
  // until its transaction ends.
  ghost predicate Unlocked(s: Sys, id: nat) {
    id !in s.Own()
  }

  ghost predicate MayInsert(s: Sys, kind: Kind) {
    forall i :: i in s.Own() && s.Own()[i].status == QUEUED ==> s.Own()[i].kind != kind
  }

  ghost function AfterEnqueue(db: Db, kind: Kind, slot: Option<string>): Db {
    if Conflicts(db.jobs, kind, slot) then db else Inserted(db, kind, slot)
  }

  function WithLane(s: Sys, w: string, l: Lane): Sys {
    s.(lanes := s.lanes[w := l])
  }

  function RequeueView(s: Sys): map<nat, Job>
    requires s.reap.Some?
  {
    Merged(s.db.jobs, s.reap.value.own)
  }

  ghost predicate Next(s: Sys, a: Action, s': Sys) {
    match a
    case Tick(seconds) =>
      s' == s.(db := s.db.(now := s.db.now + seconds))
    case Enqueue(kind, slot) =>
      && MayInsert(s, kind)
      && s' == s.(db := AfterEnqueue(s.db, kind, slot))
    case Claim(w, kinds, id) =>
      && s.Lane(w) == Idle
      && IsOldest(s.db.jobs, kinds, id)
      && Unlocked(s, id)
      && s' == WithLane(s, w, Busy(id, s.db.jobs[id].attempts + 1, Working))
               .(db := Claimed(s.db, id, w), left := s.left[id := s.data])
    case Beat(w, id, attempt) =>
      && id in s.db.jobs && 1 <= attempt <= s.db.jobs[id].attempts
      && Unlocked(s, id)
      && s' == s.(db := Beaten(s.db, id, Some(w)))
    case OpenRun(w) =>
      && s.Lane(w).Busy?
      && s' == s.(db := s.db.(runs := s.db.runs + [Run(s.Lane(w).job, s.Lane(w).attempt, true)]))
    case EndRun(i) =>
      && i < |s.db.runs|
      && s' == s.(db := s.db.(runs := s.db.runs[i := s.db.runs[i].(open := false)]))
    case Collect(w) =>
      && s.Lane(w).Busy? && (s.Lane(w).phase == Working || s.Lane(w).phase.Collected?)
      && s' == WithLane(s, w, s.Lane(w).(phase := Collected(s.data + 1))).(data := s.data + 1)
    case CommitAside =>
      s' == s.(data := s.data + 1)
    case Chain(w) =>
      && s.Lane(w).Busy? && s.Lane(w).phase.Collected?
      && MayInsert(s, CALC)
      && s' == WithLane(s, w, s.Lane(w).(phase := Chained(s.Lane(w).phase.version))).(db := AfterEnqueue(s.db, CALC, None))
    case FinishOk(w) =>
      && s.Lane(w).Busy? && (s.Lane(w).phase == Working || s.Lane(w).phase.Chained?)
      && Unlocked(s, s.Lane(w).job)
      && s' == WithLane(s, w, Idle)
               .(db := Finished(s.db, s.Lane(w).job, Some(w), true),
                 owed := if Owned(s.db.jobs, s.Lane(w).job, Some(w)) && s.Lane(w).phase.Chained? then s.owed + {s.Lane(w).phase.version}
                         else s.owed)
    case FinishFail(w) =>
      && s.Lane(w).Busy? && s.Lane(w).phase != Closing
      && Unlocked(s, s.Lane(w).job)
      && s' == WithLane(s, w, if Owned(s.db.jobs, s.Lane(w).job, Some(w)) then s.Lane(w).(phase := Closing) else Idle)
               .(db := Finished(s.db, s.Lane(w).job, Some(w), false))
    case CloseRuns(w) =>
      && s.Lane(w).Busy? && s.Lane(w).phase == Closing
      && s' == WithLane(s, w, Idle).(db := s.db.(runs := ClosedRuns(s.db.runs, {s.Lane(w).job})))
    case Crash(w) =>
      s' == WithLane(s, w, Idle)
    case Cancel(id) =>
      && Unlocked(s, id)
      && s' == s.(db := Cancelled(s.db, id),
                  left := if id in s.db.jobs && s.db.jobs[id].status == QUEUED then s.left[id := s.data] else s.left)
    case ReapSupersede =>
      && s.reap == None
      && s' == s.(reap := Some(Txn(s.db.now, 1, s.db.next, Superseding(s.db.jobs, s.db.now))))
    case ReapRequeue =>
      && s.reap.Some? && s.reap.value.stage == 1
      && var own := s.reap.value.own + Requeueing(RequeueView(s), s.reap.value.at);
         // the unique index on queued rows aborts the whole transaction
         s' == s.(reap := if OneQueuedPerKind(Merged(s.db.jobs, own)) then Some(s.reap.value.(stage := 2, own := own)) else None)
    case ReapExpire =>
      && s.reap.Some? && s.reap.value.stage == 2
      && s' == s.(reap := Some(s.reap.value.(stage := 3,
                                             own := s.reap.value.own + Expiring(RequeueView(s), s.reap.value.at))))
    case ReapCommit =>
      && s.reap.Some? && s.reap.value.stage == 3
      && s' == s.(reap := None, db := Committed(s.db, s.reap.value.own))
    case ReapLost =>
      && s.reap.Some?
      && s' == s.(reap := None)
  }

  // ---------------------------------------------------------------- the invariant

  ghost predicate RowsOk(db: Db) {
    && (forall i :: i in db.jobs ==> i < db.next && db.jobs[i].heartbeat <= db.now && db.jobs[i].attempts <= db.jobs[i].maxAttempts)
    && (forall i :: i in db.jobs && db.jobs[i].status == QUEUED ==> db.jobs[i].attempts < db.jobs[i].maxAttempts)
    && OneJobPerSlot(db.jobs)
  }

  // What the reaper holds are changed copies of running rows.
  ghost predicate OwnOk(s: Sys) {
    && (forall i :: i in s.Own() ==>
          && i in s.db.jobs
          && s.db.jobs[i].status == RUNNING
          && (s.Own()[i].status == QUEUED || s.Own()[i].status == FAILED)
          && s.Own()[i] == s.db.jobs[i].(status := s.Own()[i].status, worker := s.Own()[i].worker, error := s.Own()[i].error)
          && (s.Own()[i].status == QUEUED ==> s.Own()[i].attempts < s.Own()[i].maxAttempts))
    && (s.reap.Some? ==> s.reap.value.at <= s.db.now && s.reap.value.seen <= s.db.next)
  }

  ghost predicate QueueOk(s: Sys) {
    && OneQueuedPerKind(Merged(s.db.jobs, s.Own()))
    && OneRunningPerKind(s.db.jobs)
  }

  // After its first statement: a stale job it did not give up can only meet a queued job that was inserted since.
  ghost predicate SlippedIn(s: Sys) {
    s.reap.Some? && s.reap.value.stage == 1 ==>
      forall i, q :: i in s.db.jobs && q in s.db.jobs && i !in s.Own() && Stale(s.db.jobs[i], s.reap.value.at)
                     && s.db.jobs[q].status == QUEUED && s.db.jobs[q].kind == s.db.jobs[i].kind
                     ==> q >= s.reap.value.seen
  }

  // A lane that is busy with a job holds the attempt it claimed, or has lost the job.
  ghost predicate LaneOk(s: Sys, w: string) {
    s.Lane(w).Busy? ==>
      var l := s.Lane(w);
      && l.job in s.db.jobs
      && 1 <= l.attempt <= s.db.jobs[l.job].attempts
      && (Owned(s.db.jobs, l.job, Some(w)) ==> s.db.jobs[l.job].attempts == l.attempt)
      && (l.phase == Closing ==> s.db.jobs[l.job].status == FAILED && s.db.jobs[l.job].attempts == l.attempt)
      && (l.phase.Collected? ==> l.phase.version <= s.data)
      && (l.phase.Chained? ==> l.phase.version <= s.data)
  }

  ghost predicate LanesOk(s: Sys) {
    forall w :: LaneOk(s, w)
  }

  ghost predicate RunsOk(db: Db) {
    forall i :: 0 <= i < |db.runs| ==>
      db.runs[i].job in db.jobs && 1 <= db.runs[i].attempt <= db.jobs[db.runs[i].job].attempts
  }

  ghost predicate LeftOk(s: Sys) {
    forall i :: i in s.db.jobs && s.db.jobs[i].status != QUEUED ==> i in s.left && s.left[i] <= s.data
  }

  // Another job of the kind is queued, or was until after job i left the queue and was then cancelled.
  ghost predicate StandsIn(s: Sys, i: nat, q: nat) {
    && q in s.db.jobs && q != i && i in s.db.jobs
    && s.db.jobs[q].kind == s.db.jobs[i].kind
    && q !in s.Own()
    && (s.db.jobs[q].status == QUEUED
        || (s.db.jobs[q].status == CANCELLED && q in s.left && i in s.left && s.left[q] >= s.left[i]))
  }

  ghost predicate SupersededOk(s: Sys) {
    forall i :: i in s.Own() && s.Own()[i].error == Superseded ==> exists q :: StandsIn(s, i, q)
  }

  ghost predicate Inv(s: Sys) {
    && RowsOk(s.db)
    && OwnOk(s)
    && QueueOk(s)
    && SlippedIn(s)
    && LanesOk(s)
    && RunsOk(s.db)
    && LeftOk(s)
    && SupersededOk(s)
  }

  lemma InitInv()
    ensures Inv(INIT)
  {
  }

  // ---------------------------------------------------------------- every step keeps the invariant

  predicate OnRow(a: Action) {
    a.Claim? || a.Beat? || a.FinishOk? || a.FinishFail? || a.Cancel?
  }

  predicate ByReaper(a: Action) {
    a.ReapSupersede? || a.ReapRequeue? || a.ReapExpire? || a.ReapCommit? || a.ReapLost?
  }

  // A step on a row: a claim, a heartbeat, an end or a cancellation of that row, and nothing else.
  ghost predicate RowMayBecome(j: Job, j': Job, now: nat) {
    || j' == j
    || (j.status == QUEUED && j'.status == RUNNING && j'.attempts == j.attempts + 1
        && j' == j.(status := RUNNING, heartbeat := now, attempts := j'.attempts, worker := j'.worker, error := NoError))
    || (j.status == RUNNING && j' == j.(heartbeat := now))
    || (j.status == RUNNING && j' == j.(status := DONE, error := NoError))
    || (j.status == RUNNING && j' == j.(status := FAILED, error := RunError))
    || (j.status == QUEUED && j' == j.(status := CANCELLED))
  }

  lemma WhatRowStepsDo(s: Sys, a: Action, s': Sys)
    requires Next(s, a, s') && OnRow(a)
    ensures s'.reap == s.reap && s'.db == s.db.(jobs := s'.db.jobs) && s'.db.jobs.Keys == s.db.jobs.Keys
    ensures forall i :: i in s.Own() ==> i in s.db.jobs ==> s'.db.jobs[i] == s.db.jobs[i]
    ensures forall i :: i in s.db.jobs ==> RowMayBecome(s.db.jobs[i], s'.db.jobs[i], s.db.now)
    ensures forall i :: i in s.db.jobs && s'.db.jobs[i].status == RUNNING && s.db.jobs[i].status != RUNNING ==>
              !IsRunning(s.db.jobs, s.db.jobs[i].kind) && a.Claim? && a.id == i
  {
    forall i | i in s.db.jobs
      ensures i in s'.db.jobs && RowMayBecome(s.db.jobs[i], s'.db.jobs[i], s.db.now)
    {
      RowStep(s, a, s', i);
    }
  }

  lemma RowStep(s: Sys, a: Action, s': Sys, i: nat)
    requires Next(s, a, s') && OnRow(a) && i in s.db.jobs
    ensures i in s'.db.jobs && RowMayBecome(s.db.jobs[i], s'.db.jobs[i], s.db.now)
  {
  }

  // What any step does to a row that is there, apart from the steps on a row.
  lemma WhatOtherStepsDo(s: Sys, a: Action, s': Sys, i: nat)
    requires RowsOk(s.db) && Next(s, a, s') && !OnRow(a)
    ensures i in s.db.jobs && !(a.ReapCommit? && i in s.Own()) ==> i in s'.db.jobs && s'.db.jobs[i] == s.db.jobs[i]
    ensures a.ReapCommit? && i in s.Own() ==> i in s'.db.jobs && s'.db.jobs[i] == s.Own()[i]
    ensures i in s'.db.jobs && i !in s.db.jobs && !a.ReapCommit? ==> s'.db.jobs[i].status == QUEUED && s'.db.jobs[i].attempts == 0
    ensures i in s'.db.jobs && i !in s.db.jobs && !a.ReapCommit? ==> i >= s.db.next
    ensures s'.left == s.left && s.data <= s'.data && s.db.now <= s'.db.now && s.db.next <= s'.db.next
    ensures !ByReaper(a) ==> s'.reap == s.reap
  {
  }

  // A row leaves the queue when it is claimed or cancelled, and the data of that moment is noted.
  lemma WhatRowStepsNote(s: Sys, a: Action, s': Sys, i: nat)
    requires Next(s, a, s') && OnRow(a)
    ensures s'.data == s.data
    ensures i in s.left ==> i in s'.left
    ensures i in s'.left && i !in s.left ==> s'.left[i] == s.data
    ensures i in s.left && s'.left[i] != s.left[i] ==> s'.left[i] == s.data
    ensures i in s.left && i in s.db.jobs && s.db.jobs[i].status != QUEUED ==> s'.left[i] == s.left[i]
    ensures i in s.db.jobs && s.db.jobs[i].status == QUEUED && s'.db.jobs[i] != s.db.jobs[i] ==> i in s'.left && s'.left[i] == s.data
    ensures i in s.db.jobs ==> s'.db.jobs[i].attempts == s.db.jobs[i].attempts + if a.Claim? && a.id == i then 1 else 0
    ensures a.Claim? ==> a.id in s.db.jobs
    ensures i in s.db.jobs ==> s'.db.jobs[i].worker == if a.Claim? && a.id == i then Some(a.w) else s.db.jobs[i].worker
    ensures forall w :: s'.Lane(w) == s.Lane(w) || ((a.Claim? || a.FinishOk? || a.FinishFail?) && a.w == w)
  {
  }

  lemma RowsStayOk(db: Db, db': Db)
    requires RowsOk(db) && db' == db.(jobs := db'.jobs) && db'.jobs.Keys == db.jobs.Keys
    requires forall i :: i in db.jobs ==> RowMayBecome(db.jobs[i], db'.jobs[i], db.now)
    ensures RowsOk(db')
  {
    assert forall i :: i in db.jobs ==> db'.jobs[i].slot == db.jobs[i].slot;
  }

  lemma RowStepKeepsRows(s: Sys, a: Action, s': Sys)
    requires RowsOk(s.db) && OwnOk(s) && Next(s, a, s') && OnRow(a)
    ensures RowsOk(s'.db)
  {
    hide Next, OwnOk, RowsOk, RowMayBecome;
    WhatRowStepsDo(s, a, s');
    RowsStayOk(s.db, s'.db);
  }

  lemma ReaperKeepsRows(s: Sys, a: Action, s': Sys)
    requires RowsOk(s.db) && OwnOk(s) && Next(s, a, s') && ByReaper(a)
    ensures RowsOk(s'.db)
  {
    hide RowsOk, OwnOk, Committed, Superseding, Requeueing, Expiring, OneQueuedPerKind;
    if a.ReapCommit? {
      CommitKeepsRows(s);
    }
  }

  lemma CommitKeepsRows(s: Sys)
    requires RowsOk(s.db) && OwnOk(s)
    ensures RowsOk(Committed(s.db, s.Own()))
  {
    hide ClosedRuns;
    assert forall i :: i in s.db.jobs ==> Merged(s.db.jobs, s.Own())[i].slot == s.db.jobs[i].slot;
  }

  lemma OtherKeepsRows(s: Sys, a: Action, s': Sys)
    requires RowsOk(s.db) && OwnOk(s) && Next(s, a, s') && !OnRow(a) && !ByReaper(a)
    ensures RowsOk(s'.db)
  {
  }

  lemma RowStepKeepsOwn(s: Sys, a: Action, s': Sys)
    requires RowsOk(s.db) && OwnOk(s) && Next(s, a, s') && OnRow(a)
    ensures OwnOk(s')
  {
    hide Next, RowMayBecome, RowsOk;
    WhatRowStepsDo(s, a, s');
  }

  // The rows the second statement takes are stale ones the first has left.
  lemma RequeuedRow(s: Sys, i: nat)
    requires OwnOk(s) && s.reap.Some? && i in Requeueing(RequeueView(s), s.reap.value.at)
    ensures i !in s.Own() && i in s.db.jobs && Stale(s.db.jobs[i], s.reap.value.at) && s.db.jobs[i].attempts < s.db.jobs[i].maxAttempts
    ensures Requeueing(RequeueView(s), s.reap.value.at)[i] == s.db.jobs[i].(status := QUEUED, worker := None, error := Requeued)
  {
  }

  lemma RequeueKeepsOwn(s: Sys, a: Action, s': Sys)
    requires OwnOk(s) && Next(s, a, s') && a.ReapRequeue?
    ensures OwnOk(s')
  {
    hide OneQueuedPerKind, Requeueing, RequeueView;
    if s'.reap.Some? {
      var more := Requeueing(RequeueView(s), s.reap.value.at);
      assert s'.Own() == s.Own() + more;
      forall i | i in more ensures i in s.db.jobs && s.db.jobs[i].status == RUNNING
          && more[i] == s.db.jobs[i].(status := QUEUED, worker := None, error := Requeued)
          && more[i].attempts < more[i].maxAttempts
      {
        RequeuedRow(s, i);
      }
    }
  }

  lemma ReaperKeepsOwn(s: Sys, a: Action, s': Sys)
    requires RowsOk(s.db) && OwnOk(s) && Next(s, a, s') && ByReaper(a) && !a.ReapRequeue?
    ensures OwnOk(s')
  {
    hide OneJobPerSlot;
  }

  lemma OtherKeepsOwn(s: Sys, a: Action, s': Sys)
    requires RowsOk(s.db) && OwnOk(s) && Next(s, a, s') && !OnRow(a) && !ByReaper(a)
    ensures OwnOk(s')
  {
    hide Next, RowsOk;
    WhatOtherStepsDo(s, a, s', 0);
    forall i | i in s'.Own() ensures i in s'.db.jobs && s'.db.jobs[i] == s.db.jobs[i] {
      WhatOtherStepsDo(s, a, s', i);
    }
  }

  // Nothing newly queued cannot break the rule of one queued job per kind.
  lemma NoMoreQueued(before: map<nat, Job>, after: map<nat, Job>)
    requires OneQueuedPerKind(before)
    requires forall i :: i in after && after[i].status == QUEUED ==>
               i in before && before[i].status == QUEUED && before[i].kind == after[i].kind
    ensures OneQueuedPerKind(after)
  {
  }

  lemma OneMoreQueued(before: map<nat, Job>, after: map<nat, Job>, n: nat)
    requires OneQueuedPerKind(before) && n in after
    requires forall i :: i in before && before[i].status == QUEUED ==> before[i].kind != after[n].kind
    requires forall i :: i in after && i != n && after[i].status == QUEUED ==>
               i in before && before[i].status == QUEUED && before[i].kind == after[i].kind
    ensures OneQueuedPerKind(after)
  {
  }

  lemma InsertKeepsQueue(s: Sys, kind: Kind, slot: Option<string>)
    requires RowsOk(s.db) && OwnOk(s) && QueueOk(s) && MayInsert(s, kind) && !Conflicts(s.db.jobs, kind, slot)
    ensures OneQueuedPerKind(Merged(Inserted(s.db, kind, slot).jobs, s.Own()))
    ensures OneRunningPerKind(Inserted(s.db, kind, slot).jobs)
  {
    OneMoreQueued(Merged(s.db.jobs, s.Own()), Merged(Inserted(s.db, kind, slot).jobs, s.Own()), s.db.next);
  }

  lemma EnqueueKeepsQueue(s: Sys, a: Action, s': Sys)
    requires RowsOk(s.db) && OwnOk(s) && QueueOk(s) && Next(s, a, s') && (a.Enqueue? || a.Chain?)
    ensures QueueOk(s')
  {
    var kind := if a.Enqueue? then a.kind else CALC;
    var slot := if a.Enqueue? then a.slot else None;
    if !Conflicts(s.db.jobs, kind, slot) {
      InsertKeepsQueue(s, kind, slot);
    }
  }

  // Rows that may only step as above, at most one of them into RUNNING and that one not beside another of its kind.
  lemma RowsKeepRunning(jobs: map<nat, Job>, jobs': map<nat, Job>, now: nat, id: nat)
    requires jobs'.Keys == jobs.Keys
    requires forall i :: i in jobs ==> RowMayBecome(jobs[i], jobs'[i], now)
    requires forall i :: i in jobs && jobs'[i].status == RUNNING && jobs[i].status != RUNNING ==>
               i == id && !IsRunning(jobs, jobs[i].kind)
    requires OneRunningPerKind(jobs)
    ensures OneRunningPerKind(jobs')
  {
    forall i | i in jobs' && jobs'[i].status == RUNNING
      ensures jobs'[i].kind == jobs[i].kind && (i == id || jobs[i].status == RUNNING)
    {
      assert RowMayBecome(jobs[i], jobs'[i], now);
    }
  }

  lemma RowsKeepQueued(jobs: map<nat, Job>, jobs': map<nat, Job>, own: map<nat, Job>, now: nat)
    requires jobs'.Keys == jobs.Keys && own.Keys <= jobs.Keys
    requires forall i :: i in jobs ==> RowMayBecome(jobs[i], jobs'[i], now)
    requires OneQueuedPerKind(Merged(jobs, own))
    ensures OneQueuedPerKind(Merged(jobs', own))
  {
    hide OneQueuedPerKind;
    forall i | i in Merged(jobs', own) && Merged(jobs', own)[i].status == QUEUED
      ensures i in Merged(jobs, own) && Merged(jobs, own)[i].status == QUEUED
              && Merged(jobs, own)[i].kind == Merged(jobs', own)[i].kind
    {
      assert RowMayBecome(jobs[i], jobs'[i], now);
    }
    NoMoreQueued(Merged(jobs, own), Merged(jobs', own));
  }

  lemma RowStepKeepsQueue(s: Sys, a: Action, s': Sys)
    requires RowsOk(s.db) && OwnOk(s) && QueueOk(s) && Next(s, a, s') && OnRow(a)
    ensures QueueOk(s')
  {
    hide Next, RowsOk, RowMayBecome, OneQueuedPerKind, OneRunningPerKind, IsRunning;
    WhatRowStepsDo(s, a, s');
    RowsKeepQueued(s.db.jobs, s'.db.jobs, s.Own(), s.db.now);
    RowsKeepRunning(s.db.jobs, s'.db.jobs, s.db.now, if a.Claim? then a.id else 0);
  }

  // Failing rows queues none.
  lemma FailingKeepsQueue(jobs: map<nat, Job>, own: map<nat, Job>, more: map<nat, Job>)
    requires OneQueuedPerKind(Merged(jobs, own))
    requires forall i :: i in more ==> more[i].status != QUEUED
    ensures OneQueuedPerKind(Merged(jobs, own + more))
  {
    NoMoreQueued(Merged(jobs, own), Merged(jobs, own + more));
  }

  lemma StatementKeepsQueue(s: Sys, a: Action, s': Sys)
    requires OwnOk(s) && QueueOk(s) && Next(s, a, s') && (a.ReapSupersede? || a.ReapExpire?)
    ensures QueueOk(s')
  {
    hide OneQueuedPerKind, OwnOk, IsQueued;
    var more := if a.ReapSupersede? then Superseding(s.db.jobs, s.db.now) else Expiring(RequeueView(s), s.reap.value.at);
    FailingKeepsQueue(s.db.jobs, s.Own(), more);
    assert s'.Own() == s.Own() + more;
  }

  // With the reaper's changes or without them, the committed rows keep both rules.
  lemma EitherKeepsRules(s: Sys)
    requires OwnOk(s) && QueueOk(s)
    ensures OneQueuedPerKind(s.db.jobs)
    ensures OneRunningPerKind(Merged(s.db.jobs, s.Own()))
  {
    NoMoreQueued(Merged(s.db.jobs, s.Own()), s.db.jobs);
  }

  lemma EndKeepsQueue(s: Sys, a: Action, s': Sys)
    requires OwnOk(s) && QueueOk(s) && Next(s, a, s')
    requires a.ReapCommit? || a.ReapLost? || (a.ReapRequeue? && s'.reap == None)
    ensures QueueOk(s')
  {
    hide OwnOk, OneQueuedPerKind, OneRunningPerKind, ClosedRuns, Requeueing;
    EitherKeepsRules(s);
    assert s'.db.jobs == if a.ReapCommit? then Merged(s.db.jobs, s.Own()) else s.db.jobs;
    assert Merged(s'.db.jobs, s'.Own()) == s'.db.jobs;
  }

  lemma ReaperKeepsQueue(s: Sys, a: Action, s': Sys)
    requires OwnOk(s) && QueueOk(s) && Next(s, a, s') && ByReaper(a)
    ensures QueueOk(s')
  {
    if a.ReapSupersede? || a.ReapExpire? {
      StatementKeepsQueue(s, a, s');
    } else if a.ReapCommit? || a.ReapLost? || s'.reap == None {
      EndKeepsQueue(s, a, s');
    }
  }

  lemma KeepsQueueOk(s: Sys, a: Action, s': Sys)
    requires RowsOk(s.db) && OwnOk(s) && QueueOk(s) && Next(s, a, s')
    ensures QueueOk(s')
  {
    if a.Enqueue? || a.Chain? {
      EnqueueKeepsQueue(s, a, s');
    } else if OnRow(a) {
      RowStepKeepsQueue(s, a, s');
    } else if ByReaper(a) {
      ReaperKeepsQueue(s, a, s');
    }
  }

  lemma RowStepKeepsSlippedIn(s: Sys, a: Action, s': Sys)
    requires RowsOk(s.db) && OwnOk(s) && SlippedIn(s) && Next(s, a, s') && OnRow(a)
    ensures SlippedIn(s')
  {
    hide Next, OneJobPerSlot;
    WhatRowStepsDo(s, a, s');
    if s'.reap.Some? && s'.reap.value.stage == 1 {
      forall i, q | i in s'.db.jobs && q in s'.db.jobs && i !in s'.Own() && Stale(s'.db.jobs[i], s'.reap.value.at)
                    && s'.db.jobs[q].status == QUEUED && s'.db.jobs[q].kind == s'.db.jobs[i].kind
        ensures q >= s'.reap.value.seen
      {
        assert RowMayBecome(s.db.jobs[i], s'.db.jobs[i], s.db.now) && RowMayBecome(s.db.jobs[q], s'.db.jobs[q], s.db.now);
      }
    }
  }

  lemma ReaperKeepsSlippedIn(s: Sys, a: Action, s': Sys)
    requires RowsOk(s.db) && OwnOk(s) && SlippedIn(s) && Next(s, a, s') && ByReaper(a)
    ensures SlippedIn(s')
  {
    hide OneJobPerSlot, OneQueuedPerKind;
  }

  lemma OtherKeepsSlippedIn(s: Sys, a: Action, s': Sys)
    requires RowsOk(s.db) && OwnOk(s) && SlippedIn(s) && Next(s, a, s') && !OnRow(a) && !ByReaper(a)
    ensures SlippedIn(s')
  {
    hide Next, RowsOk;
    WhatOtherStepsDo(s, a, s', 0);
    if s'.reap.Some? && s'.reap.value.stage == 1 {
      forall i: nat, q: nat | i in s'.db.jobs && q in s'.db.jobs && i !in s'.Own() && Stale(s'.db.jobs[i], s'.reap.value.at)
                              && s'.db.jobs[q].status == QUEUED && s'.db.jobs[q].kind == s'.db.jobs[i].kind
        ensures q >= s'.reap.value.seen
      {
        WhatOtherStepsDo(s, a, s', i);
        WhatOtherStepsDo(s, a, s', q);
      }
    }
  }

  // No attempt is ever taken back.
  lemma AttemptsGrow(s: Sys, a: Action, s': Sys, i: nat)
    requires RowsOk(s.db) && OwnOk(s) && Next(s, a, s') && i in s.db.jobs
    ensures i in s'.db.jobs && s.db.jobs[i].attempts <= s'.db.jobs[i].attempts
  {
    hide Next, RowsOk;
    if OnRow(a) {
      WhatRowStepsDo(s, a, s');
      assert RowMayBecome(s.db.jobs[i], s'.db.jobs[i], s.db.now);
    } else {
      WhatOtherStepsDo(s, a, s', i);
    }
  }

  lemma WhereRunsComeFrom(s: Sys, a: Action, s': Sys, i: nat)
    requires Next(s, a, s') && i < |s'.db.runs|
    ensures if i < |s.db.runs| then s'.db.runs[i].job == s.db.runs[i].job && s'.db.runs[i].attempt == s.db.runs[i].attempt
            else a.OpenRun? && s.Lane(a.w).Busy? && s'.db.runs[i] == Run(s.Lane(a.w).job, s.Lane(a.w).attempt, true)
  {
  }

  lemma KeepsRunsOk(s: Sys, a: Action, s': Sys)
    requires RowsOk(s.db) && OwnOk(s) && RunsOk(s.db) && Next(s, a, s') && LanesOk(s)
    ensures RunsOk(s'.db)
  {
    hide Next, RowsOk, OwnOk;
    forall i: nat | i < |s'.db.runs|
      ensures s'.db.runs[i].job in s'.db.jobs && 1 <= s'.db.runs[i].attempt <= s'.db.jobs[s'.db.runs[i].job].attempts
    {
      WhereRunsComeFrom(s, a, s', i);
      if a.OpenRun? {
        assert LaneOk(s, a.w);
      }
      AttemptsGrow(s, a, s', s'.db.runs[i].job);
    }
  }

  lemma KeepsLeftOk(s: Sys, a: Action, s': Sys)
    requires RowsOk(s.db) && OwnOk(s) && LeftOk(s) && Next(s, a, s')
    ensures LeftOk(s')
  {
    hide Next;
    forall i: nat | i in s'.db.jobs && s'.db.jobs[i].status != QUEUED ensures i in s'.left && s'.left[i] <= s'.data {
      if OnRow(a) {
        WhatRowStepsDo(s, a, s');
        WhatRowStepsNote(s, a, s', i);
      } else {
        WhatOtherStepsDo(s, a, s', i);
        if i !in s.db.jobs && a.ReapCommit? {
          ReapAddsNoRow(s, s', i);
        }
      }
    }
  }

  lemma ReapAddsNoRow(s: Sys, s': Sys, i: nat)
    requires OwnOk(s) && Next(s, ReapCommit, s')
    ensures i in s'.db.jobs ==> i in s.db.jobs
  {
  }

  lemma ActorKeepsLane(s: Sys, a: Action, s': Sys)
    requires OwnOk(s) && LanesOk(s) && Next(s, a, s') && (a.Claim? || a.FinishOk? || a.FinishFail?)
    ensures LaneOk(s', a.w)
  {
    assert LaneOk(s, a.w);
  }

  lemma RowStepKeepsLanes(s: Sys, a: Action, s': Sys)
    requires RowsOk(s.db) && OwnOk(s) && LanesOk(s) && Next(s, a, s') && OnRow(a)
    ensures LanesOk(s')
  {
    hide Next, RowsOk, OwnOk;
    WhatRowStepsDo(s, a, s');
    forall w ensures LaneOk(s', w) {
      assert LaneOk(s, w);
      if s.Lane(w).Busy? {
        WhatRowStepsNote(s, a, s', s.Lane(w).job);
        assert RowMayBecome(s.db.jobs[s.Lane(w).job], s'.db.jobs[s.Lane(w).job], s.db.now);
      } else {
        WhatRowStepsNote(s, a, s', 0);
      }
      if (a.Claim? || a.FinishOk? || a.FinishFail?) && a.w == w {
        ActorKeepsLane(s, a, s');
      }
    }
  }

  lemma ReaperKeepsLanes(s: Sys, a: Action, s': Sys)
    requires RowsOk(s.db) && OwnOk(s) && LanesOk(s) && Next(s, a, s') && ByReaper(a)
    ensures LanesOk(s')
  {
    forall w ensures LaneOk(s', w) {
      assert LaneOk(s, w);
    }
  }

  lemma WhatOtherStepsDoToLanes(s: Sys, a: Action, s': Sys, w: string)
    requires Next(s, a, s') && !OnRow(a)
    ensures s'.Lane(w).Busy? ==>
              var l, l' := s.Lane(w), s'.Lane(w);
              && l.Busy? && l'.job == l.job && l'.attempt == l.attempt
              && (l'.phase == l.phase
                  || (l'.phase.Collected? && l'.phase.version == s'.data && a == Collect(w))
                  || (l'.phase.Chained? && l.phase == Collected(l'.phase.version) && a == Chain(w)))
  {
  }

  lemma OtherKeepsLanes(s: Sys, a: Action, s': Sys)
    requires RowsOk(s.db) && OwnOk(s) && LanesOk(s) && Next(s, a, s') && !OnRow(a) && !ByReaper(a)
    ensures LanesOk(s')
  {
    hide Next, RowsOk, OwnOk;
    forall w ensures LaneOk(s', w) {
      assert LaneOk(s, w);
      WhatOtherStepsDoToLanes(s, a, s', w);
      if s.Lane(w).Busy? {
        WhatOtherStepsDo(s, a, s', s.Lane(w).job);
      }
    }
  }

  lemma StandInStaysOnRowStep(s: Sys, a: Action, s': Sys, i: nat, q: nat)
    requires OwnOk(s) && LeftOk(s) && Next(s, a, s') && OnRow(a)
    requires i in s.Own() && StandsIn(s, i, q)
    ensures StandsIn(s', i, q)
  {
    hide Next;
    WhatRowStepsDo(s, a, s');
    WhatRowStepsNote(s, a, s', i);
    WhatRowStepsNote(s, a, s', q);
    assert IsRunning(s.db.jobs, s.db.jobs[i].kind);
    assert RowMayBecome(s.db.jobs[q], s'.db.jobs[q], s.db.now);
  }

  lemma StandInStaysElse(s: Sys, a: Action, s': Sys, i: nat, q: nat)
    requires RowsOk(s.db) && OwnOk(s) && Next(s, a, s') && !OnRow(a) && s'.reap.Some? && s.reap.Some?
    requires i in s.Own() && StandsIn(s, i, q)
    ensures StandsIn(s', i, q)
  {
    hide Next, RowsOk, OwnOk;
    WhatOtherStepsDo(s, a, s', i);
    WhatOtherStepsDo(s, a, s', q);
    if ByReaper(a) {
      OwnGrowsByRunning(s, a, s', q);
    }
  }

  lemma OwnGrowsByRunning(s: Sys, a: Action, s': Sys, q: nat)
    requires OwnOk(s) && Next(s, a, s') && ByReaper(a) && s.reap.Some? && s'.reap.Some?
    ensures q in s'.Own() && q !in s.Own() ==> q in s.db.jobs && s.db.jobs[q].status == RUNNING
    ensures !a.ReapCommit?
  {
  }

  lemma KeepsSupersededOk(s: Sys, a: Action, s': Sys)
    requires RowsOk(s.db) && OwnOk(s) && LeftOk(s) && SupersededOk(s) && Next(s, a, s')
    ensures SupersededOk(s')
  {
    forall i | i in s'.Own() && s'.Own()[i].error == Superseded ensures exists q :: StandsIn(s', i, q) {
      if a.ReapSupersede? {
        var q :| q in s.db.jobs && s.db.jobs[q].status == QUEUED && s.db.jobs[q].kind == s.db.jobs[i].kind;
        assert StandsIn(s', i, q);
      } else {
        var q :| StandsIn(s, i, q);
        if OnRow(a) {
          StandInStaysOnRowStep(s, a, s', i, q);
        } else {
          StandInStaysElse(s, a, s', i, q);
        }
      }
    }
  }

  // The invariant is inductive.
  lemma StepKeepsInv(s: Sys, a: Action, s': Sys)
    requires Inv(s) && Next(s, a, s')
    ensures Inv(s')
  {
    hide Next, RowsOk, OwnOk, QueueOk, LeftOk, SupersededOk, SlippedIn, RunsOk, LanesOk;
    if OnRow(a) {
      RowStepKeepsRows(s, a, s');
      RowStepKeepsOwn(s, a, s');
      RowStepKeepsLanes(s, a, s');
      RowStepKeepsSlippedIn(s, a, s');
    } else if ByReaper(a) {
      ReaperKeepsRows(s, a, s');
      ReaperKeepsLanes(s, a, s');
      ReaperKeepsSlippedIn(s, a, s');
      if a.ReapRequeue? {
        RequeueKeepsOwn(s, a, s');
      } else {
        ReaperKeepsOwn(s, a, s');
      }
    } else {
      OtherKeepsRows(s, a, s');
      OtherKeepsLanes(s, a, s');
      OtherKeepsSlippedIn(s, a, s');
      OtherKeepsOwn(s, a, s');
    }
    KeepsQueueOk(s, a, s');
    KeepsRunsOk(s, a, s');
    KeepsLeftOk(s, a, s');
    KeepsSupersededOk(s, a, s');
  }

  // ---------------------------------------------------------------- what holds over every run

  ghost predicate IsRun(states: seq<Sys>, acts: seq<Action>) {
    && |states| == |acts| + 1
    && states[0] == INIT
    && forall i :: 0 <= i < |acts| ==> Next(states[i], acts[i], states[i + 1])
  }

  lemma {:induction false} RunKeepsInv(states: seq<Sys>, acts: seq<Action>, n: nat)
    requires IsRun(states, acts) && n < |states|
    ensures Inv(states[n])
  {
    hide Next, Inv;
    if n == 0 {
      InitInv();
    } else {
      RunKeepsInv(states, acts, n - 1);
      StepKeepsInv(states[n - 1], acts[n - 1], states[n]);
    }
  }

  // At every moment each kind has at most one queued and at most one running job, and a slot at most one job ever.
  lemma OnePerKind(states: seq<Sys>, acts: seq<Action>, n: nat)
    requires IsRun(states, acts) && n < |states|
    ensures OneQueuedPerKind(states[n].db.jobs) && OneRunningPerKind(states[n].db.jobs)
    ensures OneJobPerSlot(states[n].db.jobs)
  {
    hide Next;
    RunKeepsInv(states, acts, n);
    var s := states[n];
    NoMoreQueued(Merged(s.db.jobs, s.Own()), s.db.jobs);
  }

  lemma TerminalStep(s: Sys, a: Action, s': Sys, id: nat)
    requires RowsOk(s.db) && OwnOk(s) && Next(s, a, s')
    requires id in s.db.jobs && Terminal(s.db.jobs[id].status)
    ensures id in s'.db.jobs && s'.db.jobs[id] == s.db.jobs[id]
  {
    hide Next;
    if OnRow(a) {
      WhatRowStepsDo(s, a, s');
      assert RowMayBecome(s.db.jobs[id], s'.db.jobs[id], s.db.now);
    } else {
      WhatOtherStepsDo(s, a, s', id);
    }
  }

  // A job that is done, failed or cancelled never changes again.
  lemma {:induction false} TerminalForever(states: seq<Sys>, acts: seq<Action>, m: nat, n: nat, id: nat)
    requires IsRun(states, acts) && m <= n < |states|
    requires id in states[m].db.jobs && states[m].db.jobs[id].status != QUEUED && states[m].db.jobs[id].status != RUNNING
    ensures id in states[n].db.jobs && states[n].db.jobs[id] == states[m].db.jobs[id]
  {
    hide Next, RowsOk, OwnOk;
    if m < n {
      TerminalForever(states, acts, m, n - 1, id);
      RunKeepsInv(states, acts, n - 1);
      TerminalStep(states[n - 1], acts[n - 1], states[n], id);
    }
  }

  ghost function ClaimsOf(acts: seq<Action>, id: nat): nat {
    if acts == [] then 0
    else
      var a := acts[|acts| - 1];
      ClaimsOf(acts[..|acts| - 1], id) + if a.Claim? && a.id == id then 1 else 0
  }

  ghost function Attempts(jobs: map<nat, Job>, id: nat): nat {
    if id in jobs then jobs[id].attempts else 0
  }

  lemma AttemptsStep(s: Sys, a: Action, s': Sys, id: nat)
    requires RowsOk(s.db) && OwnOk(s) && Next(s, a, s')
    ensures Attempts(s'.db.jobs, id) == Attempts(s.db.jobs, id) + if a.Claim? && a.id == id then 1 else 0
  {
    hide Next;
    if OnRow(a) {
      WhatRowStepsDo(s, a, s');
      WhatRowStepsNote(s, a, s', id);
    } else {
      WhatOtherStepsDo(s, a, s', id);
      if id !in s.db.jobs && a.ReapCommit? {
        ReapAddsNoRow(s, s', id);
      }
    }
  }

  // A job is claimed as often as its attempts say, which is at most max_attempts.
  lemma {:induction false} ClaimsAreAttempts(states: seq<Sys>, acts: seq<Action>, n: nat, id: nat)
    requires IsRun(states, acts) && n < |states|
    ensures ClaimsOf(acts[..n], id) == Attempts(states[n].db.jobs, id)
  {
    hide Next, RowsOk, OwnOk;
    if n > 0 {
      ClaimsAreAttempts(states, acts, n - 1, id);
      RunKeepsInv(states, acts, n - 1);
      AttemptsStep(states[n - 1], acts[n - 1], states[n], id);
      assert acts[..n][..n - 1] == acts[..n - 1];
    }
  }

  lemma ClaimsBounded(states: seq<Sys>, acts: seq<Action>, n: nat, id: nat)
    requires IsRun(states, acts) && n < |states| && id in states[n].db.jobs
    ensures ClaimsOf(acts[..n], id) <= states[n].db.jobs[id].maxAttempts
  {
    hide Next;
    ClaimsAreAttempts(states, acts, n, id);
    RunKeepsInv(states, acts, n);
  }

  // A claimed job was put into the queue no later than any job the lane could have claimed at that moment, and bears the smallest
  // number among those of its time.
  lemma ClaimsOldestFirst(states: seq<Sys>, acts: seq<Action>, n: nat, j: nat)
    requires IsRun(states, acts) && n < |acts| && acts[n].Claim?
    requires var jobs, kinds := states[n].db.jobs, acts[n].kinds;
             && j in jobs && jobs[j].status == QUEUED && (kinds.Some? ==> jobs[j].kind in kinds.value)
             && forall i :: i in jobs && jobs[i].kind == jobs[j].kind ==> jobs[i].status != RUNNING
    ensures var jobs, id := states[n].db.jobs, acts[n].id;
            && id in jobs && jobs[id].status == QUEUED
            && jobs[id].created <= jobs[j].created && (jobs[id].created == jobs[j].created ==> id <= j)
  {
    assert Next(states[n], acts[n], states[n + 1]);
    assert Claimable(states[n].db.jobs, acts[n].kinds, j);
  }

  // A stale row with attempts left, not yet given up, meets a queued row of its kind.
  ghost predicate Meets(s: Sys, i: nat, q: nat)
    requires s.reap.Some?
  {
    && i in s.db.jobs && q in s.db.jobs
    && i !in s.Own() && Stale(s.db.jobs[i], s.reap.value.at) && s.db.jobs[i].attempts < s.db.jobs[i].maxAttempts
    && s.db.jobs[q].status == QUEUED && s.db.jobs[q].kind == s.db.jobs[i].kind
  }

  // A row queued under the requeueing statement was queued before, or was stale with attempts left.
  lemma QueuedOrStale(s: Sys, own: map<nat, Job>, i: nat)
    requires OwnOk(s) && s.reap.Some?
    requires own == s.reap.value.own + Requeueing(RequeueView(s), s.reap.value.at)
    requires i in Merged(s.db.jobs, own) && Merged(s.db.jobs, own)[i].status == QUEUED
    ensures i in s.db.jobs && s.db.jobs[i].kind == Merged(s.db.jobs, own)[i].kind
    ensures s.db.jobs[i].status == QUEUED || i in s.Own()
            || (Stale(s.db.jobs[i], s.reap.value.at) && s.db.jobs[i].attempts < s.db.jobs[i].maxAttempts)
    ensures i in s.Own() ==> s.Own()[i].status == QUEUED && s.db.jobs[i].status == RUNNING
  {
    hide Requeueing, RequeueView;
    if i in Requeueing(RequeueView(s), s.reap.value.at) {
      RequeuedRow(s, i);
    }
  }

  lemma QueuedTwice(s: Sys, own: map<nat, Job>, i: nat, q: nat)
    requires OwnOk(s) && QueueOk(s) && s.reap.Some?
    requires own == s.reap.value.own + Requeueing(RequeueView(s), s.reap.value.at)
    requires var after := Merged(s.db.jobs, own);
             i in after && q in after && after[i].status == QUEUED && after[q].status == QUEUED && after[i].kind == after[q].kind
             && i != q
    ensures Meets(s, i, q) || Meets(s, q, i)
  {
    hide Requeueing, RequeueView;
    QueuedOrStale(s, own, i);
    QueuedOrStale(s, own, q);
  }

  lemma MeetingBreaksRule(s: Sys, own: map<nat, Job>, i: nat, q: nat)
    requires OwnOk(s) && s.reap.Some? && Meets(s, i, q)
    requires own == s.reap.value.own + Requeueing(RequeueView(s), s.reap.value.at)
    ensures !OneQueuedPerKind(Merged(s.db.jobs, own))
  {
    var more, after := Requeueing(RequeueView(s), s.reap.value.at), Merged(s.db.jobs, own);
    assert i in more && q !in own;
    assert after[i].status == QUEUED && after[q].status == QUEUED && after[i].kind == after[q].kind;
  }

  // The requeueing statement hits the unique index exactly when such a row meets such another; that one was inserted after the
  // transaction's first statement, and the table stays as it is.
  lemma ReapAbortsOnlyOnSlip(s: Sys, a: Action, s': Sys)
    requires Inv(s) && Next(s, a, s') && a.ReapRequeue?
    ensures s'.db == s.db
    ensures s'.reap == None <==> exists i, q :: Meets(s, i, q)
    ensures forall i: nat, q: nat :: Meets(s, i, q) ==> q >= s.reap.value.seen
  {
    hide Requeueing, RequeueView, Merged;
    var own := s.reap.value.own + Requeueing(RequeueView(s), s.reap.value.at);
    var after := Merged(s.db.jobs, own);
    if !OneQueuedPerKind(after) {
      var i, q :| i in after && q in after && after[i].status == QUEUED && after[q].status == QUEUED
                  && after[i].kind == after[q].kind && i != q;
      QueuedTwice(s, own, i, q);
    }
    if i, q :| Meets(s, i, q) {
      MeetingBreaksRule(s, own, i, q);
    }
  }

  // The reaper's four steps with nothing in between are the one transaction that leaves no rule broken.
  lemma ReapUninterrupted(s: Sys) returns (s1: Sys, s2: Sys, s3: Sys, s4: Sys)
    requires s.reap == None && OneQueuedPerKind(s.db.jobs) && OneRunningPerKind(s.db.jobs)
    ensures Next(s, ReapSupersede, s1) && Next(s1, ReapRequeue, s2) && Next(s2, ReapExpire, s3) && Next(s3, ReapCommit, s4)
    ensures s4 == s.(db := Reaped(s.db))
  {
    hide Superseding, Requeueing, Expiring, OneQueuedPerKind, OneRunningPerKind, ClosedRuns;
    var own1 := Superseding(s.db.jobs, s.db.now);
    var own2 := own1 + Requeueing(Merged(s.db.jobs, own1), s.db.now);
    var own3 := own2 + Expiring(Merged(s.db.jobs, own2), s.db.now);
    s1 := s.(reap := Some(Txn(s.db.now, 1, s.db.next, own1)));
    s2 := s.(reap := Some(Txn(s.db.now, 2, s.db.next, own2)));
    s3 := s.(reap := Some(Txn(s.db.now, 3, s.db.next, own3)));
    s4 := s.(db := Reaped(s.db));
    ReapedAloneIsSafe(s.db);
    UnexpiredQueue(s.db.jobs, own2, s.db.now);
  }

  // Only running rows expire, so the rule held before they did.
  lemma UnexpiredQueue(jobs: map<nat, Job>, own: map<nat, Job>, now: nat)
    requires OneQueuedPerKind(Merged(jobs, own + Expiring(Merged(jobs, own), now)))
    ensures OneQueuedPerKind(Merged(jobs, own))
  {
    NoMoreQueued(Merged(jobs, own + Expiring(Merged(jobs, own), now)), Merged(jobs, own));
  }

  // ---------------------------------------------------------------- fencing

  // What a lane is doing right now.
  ghost predicate OwnBeat(s: Sys, a: Action) {
    a.Beat? && s.Lane(a.w).Busy? && a.id == s.Lane(a.w).job && a.attempt == s.Lane(a.w).attempt
  }

  // A heartbeat or an end reported by a lane changes the table only while the job's current attempt is the one it claimed,
  // and then it changes only that job.
  lemma Fenced(s: Sys, a: Action, s': Sys)
    requires Inv(s) && Next(s, a, s') && (OwnBeat(s, a) || a.FinishOk? || a.FinishFail?)
    ensures s'.db != s.db ==>
              && s.Lane(a.w).job in s.db.jobs
              && s.db.jobs[s.Lane(a.w).job].status == RUNNING
              && s.db.jobs[s.Lane(a.w).job].attempts == s.Lane(a.w).attempt
              && s'.db == s.db.(jobs := s.db.jobs[s.Lane(a.w).job := s'.db.jobs[s.Lane(a.w).job]])
  {
    hide RowsOk, OwnOk, QueueOk, SlippedIn, RunsOk, LeftOk, SupersededOk;
    assert LaneOk(s, a.w);
  }

  // Who claimed the job last.
  ghost function LastClaimer(acts: seq<Action>, id: nat): Option<string> {
    if acts == [] then None
    else
      var a := acts[|acts| - 1];
      if a.Claim? && a.id == id then Some(a.w) else LastClaimer(acts[..|acts| - 1], id)
  }

  lemma RunningStep(s: Sys, a: Action, s': Sys, id: nat)
    requires RowsOk(s.db) && OwnOk(s) && Next(s, a, s') && id in s'.db.jobs && s'.db.jobs[id].status == RUNNING
    ensures id in s.db.jobs
    ensures if a.Claim? && a.id == id then s'.db.jobs[id].worker == Some(a.w)
            else s.db.jobs[id].status == RUNNING && s'.db.jobs[id].worker == s.db.jobs[id].worker
  {
    hide Next, RowsOk;
    if OnRow(a) {
      WhatRowStepsDo(s, a, s');
      WhatRowStepsNote(s, a, s', id);
    } else {
      WhatOtherStepsDo(s, a, s', id);
      if id !in s.db.jobs && a.ReapCommit? {
        ReapAddsNoRow(s, s', id);
      }
    }
  }

  // A running job bears the name of the worker that claimed it last.
  lemma {:induction false} RunningBelongsToLastClaimer(states: seq<Sys>, acts: seq<Action>, n: nat, id: nat)
    requires IsRun(states, acts) && n < |states|
    requires id in states[n].db.jobs && states[n].db.jobs[id].status == RUNNING
    ensures states[n].db.jobs[id].worker == LastClaimer(acts[..n], id)
  {
    hide Next, RowsOk, OwnOk;
    if n > 0 {
      RunKeepsInv(states, acts, n - 1);
      RunningStep(states[n - 1], acts[n - 1], states[n], id);
      assert acts[..n][..n - 1] == acts[..n - 1];
      if !(acts[n - 1].Claim? && acts[n - 1].id == id) {
        RunningBelongsToLastClaimer(states, acts, n - 1, id);
      }
    }
  }

  // A heartbeat of any attempt, however late, moves the heartbeat of a running job that its own worker claimed last, and nothing else.
  lemma BeatsReachOnlyOwnClaims(states: seq<Sys>, acts: seq<Action>, n: nat)
    requires IsRun(states, acts) && n < |acts| && acts[n].Beat? && states[n + 1].db != states[n].db
    ensures LastClaimer(acts[..n], acts[n].id) == Some(acts[n].w)
    ensures var jobs, id := states[n].db.jobs, acts[n].id;
            && id in jobs && jobs[id].status == RUNNING
            && states[n + 1].db == states[n].db.(jobs := jobs[id := jobs[id].(heartbeat := states[n].db.now)])
  {
    assert Next(states[n], acts[n], states[n + 1]);
    RunningBelongsToLastClaimer(states, acts, n, acts[n].id);
  }

  // A heartbeat, of whatever attempt, changes the table exactly when the job is running, the sender claimed it last, and the
  // clock has moved since its last heartbeat.
  lemma BeatCountsIff(states: seq<Sys>, acts: seq<Action>, n: nat)
    requires IsRun(states, acts) && n < |acts| && acts[n].Beat?
    ensures var jobs, a := states[n].db.jobs, acts[n];
            states[n + 1].db != states[n].db
            <==> a.id in jobs && jobs[a.id].status == RUNNING && LastClaimer(acts[..n], a.id) == Some(a.w)
                 && jobs[a.id].heartbeat != states[n].db.now
  {
    var s, a, s' := states[n], acts[n], states[n + 1];
    assert Next(s, a, s');
    if a.id in s.db.jobs && s.db.jobs[a.id].status == RUNNING {
      RunningBelongsToLastClaimer(states, acts, n, a.id);
      assert Owned(s.db.jobs, a.id, Some(a.w)) ==> s'.db.jobs[a.id].heartbeat == s.db.now;
    }
  }

  // So a heartbeat counts for another attempt than its own exactly when, besides, the job has been claimed again since: by the
  // same worker, for that one claimed it last.
  lemma LateBeatCountsIff(states: seq<Sys>, acts: seq<Action>, n: nat)
    requires IsRun(states, acts) && n < |acts| && acts[n].Beat?
    ensures var jobs, a := states[n].db.jobs, acts[n];
            (states[n + 1].db != states[n].db && Attempts(jobs, a.id) != a.attempt)
            <==> a.id in jobs && jobs[a.id].status == RUNNING && LastClaimer(acts[..n], a.id) == Some(a.w)
                 && jobs[a.id].heartbeat != states[n].db.now && ClaimsOf(acts[..n], a.id) > a.attempt
  {
    var s, a, s' := states[n], acts[n], states[n + 1];
    assert Next(s, a, s');
    BeatCountsIff(states, acts, n);
    ClaimsAreAttempts(states, acts, n, a.id);
  }

  // A lane that has lost its job, because a later claim holds it, ends without touching the table or any record.
  lemma LostJobEndsQuietly(s: Sys, a: Action, s': Sys)
    requires Inv(s) && Next(s, a, s') && (a.FinishOk? || a.FinishFail?)
    requires s.Lane(a.w).Busy? && Attempts(s.db.jobs, s.Lane(a.w).job) != s.Lane(a.w).attempt
    ensures s'.db == s.db && s'.Lane(a.w) == Idle && s'.owed == s.owed
  {
    assert LaneOk(s, a.w);
  }

  // Records are closed by their own run, by the lane whose attempt failed, or by the reaper together with the change of the job;
  // never one that a later claim has opened.
  ghost predicate ClosedRightly(s: Sys, a: Action, s': Sys, r: Run) {
    || (a.CloseRuns? && s.Lane(a.w).Busy? && s.Lane(a.w).job == r.job && r.attempt <= s.Lane(a.w).attempt
        && r.job in s.db.jobs && s.db.jobs[r.job].status == FAILED)
    || (a.ReapCommit? && r.job in s.Own() && r.job in s'.db.jobs && s'.db.jobs[r.job].status != RUNNING)
  }

  lemma WhatStepsDoToRuns(s: Sys, a: Action, s': Sys, i: nat)
    requires Next(s, a, s') && i < |s.db.runs|
    ensures i < |s'.db.runs|
    ensures s'.db.runs[i] != s.db.runs[i] ==> s'.db.runs[i] == s.db.runs[i].(open := false)
    ensures s'.db.runs[i] != s.db.runs[i] ==>
              || (a.EndRun? && a.i == i)
              || (a.CloseRuns? && s.Lane(a.w).Busy? && s.Lane(a.w).phase == Closing && s.Lane(a.w).job == s.db.runs[i].job)
              || (a.ReapCommit? && s.db.runs[i].job in s.Own() && s'.db.jobs == Merged(s.db.jobs, s.Own()))
  {
  }

  lemma ClosesOnlyOwnRecords(s: Sys, a: Action, s': Sys, i: nat)
    requires OwnOk(s) && LanesOk(s) && RunsOk(s.db) && Next(s, a, s') && i < |s.db.runs|
    ensures i < |s'.db.runs|
    ensures s'.db.runs[i] != s.db.runs[i] ==> (a.EndRun? && a.i == i) || ClosedRightly(s, a, s', s.db.runs[i])
  {
    hide Next;
    WhatStepsDoToRuns(s, a, s', i);
    if a.CloseRuns? {
      assert LaneOk(s, a.w);
    }
  }
}
