// Runs that show what can happen: a requeue that hits the index, a late heartbeat that counts, and data without a recalculation.
module JobExamples {
  import opened Jobs
  import opened JobRecalculation
  import opened JobRuns
  import opened Options

  const KIND: Kind := "migration"
  const FRESH: Job := NewJob(KIND, None, 0)
  const FIRST: Job := FRESH.(status := RUNNING, attempts := 1, worker := Some("w1"))
  const BACK: Job := FIRST.(status := QUEUED, worker := None, error := Requeued)
  const SECOND: Job := BACK.(status := RUNNING, attempts := 2, heartbeat := 601, worker := Some("w2"), error := NoError)
  const RECORDED: Job := SECOND.(status := DONE)

  function OneJob(j: Job, now: nat): Db {
    Db(map[1 := j], 2, [], now)
  }

  const ENQUEUED: Sys := INIT.(db := OneJob(FRESH, 0))
  const STARTED: Sys := ENQUEUED.(db := OneJob(FIRST, 0), lanes := map["w1" := Busy(1, 1, Working)], left := map[1 := 0])
  const STORED: Sys := STARTED.(lanes := map["w1" := Busy(1, 1, Collected(1))], data := 1)
  const DEAD: Sys := STORED.(lanes := map["w1" := Idle])

  lemma FirstClaim()
    ensures Next(INIT, Enqueue(KIND, None), ENQUEUED) && Next(ENQUEUED, Claim("w1", None, 1), STARTED)
  {
    assert IsOldest(ENQUEUED.db.jobs, None, 1);
  }

  lemma DataThenCrash()
    ensures Next(STARTED, Collect("w1"), STORED) && Next(STORED, Crash("w1"), DEAD)
    ensures Next(DEAD, Tick(601), DEAD.(db := OneJob(FIRST, 601)))
  {
  }

  // The worker dies between committing changed data and chaining; the retry finds nothing new and is recorded DONE.
  lemma UntilCrash() returns (s: Sys, states: seq<Sys>, acts: seq<Action>)
    ensures |states| > 0 && IsRun(states, acts) && states[|states| - 1] == s
    ensures s == Sys(OneJob(FIRST, 601), None, map["w1" := Idle], 1, map[1 := 0], {})
  {
    hide Next;
    s := DEAD.(db := OneJob(FIRST, 601));
    FirstClaim();
    DataThenCrash();
    states := [INIT, ENQUEUED, STARTED, STORED, DEAD, s];
    acts := [Enqueue(KIND, None), Claim("w1", None, 1), Collect("w1"), Crash("w1"), Tick(601)];
  }

  // A stale first attempt goes back to the queue.
  lemma ReapOfFirst(db: Db)
    requires db == OneJob(FIRST, 601)
    ensures OneQueuedPerKind(db.jobs) && OneRunningPerKind(db.jobs)
    ensures Reaped(db) == OneJob(BACK, 601)
  {
    hide Reaped;
    ReapedByCases(db);
    assert Outcome(db.jobs, 1, 601) == BACK;
    assert Reaped(db).jobs == OneJob(BACK, 601).jobs;
  }

  lemma SecondClaim(s9: Sys, s10: Sys)
    requires s9 == Sys(OneJob(BACK, 601), None, map["w1" := Idle], 1, map[1 := 0], {})
    requires s10 == s9.(db := OneJob(SECOND, 601), lanes := map["w1" := Idle, "w2" := Busy(1, 2, Working)], left := map[1 := 1])
    ensures Next(s9, Claim("w2", None, 1), s10)
  {
    assert IsOldest(s9.db.jobs, None, 1);
  }

  lemma SecondAttempt(s9: Sys) returns (s10: Sys, s11: Sys)
    requires s9 == Sys(OneJob(BACK, 601), None, map["w1" := Idle], 1, map[1 := 0], {})
    ensures Next(s9, Claim("w2", None, 1), s10) && Next(s10, FinishOk("w2"), s11)
    ensures s11.data == 1 && s11.db.jobs == map[1 := RECORDED]
  {
    s10 := s9.(db := OneJob(SECOND, 601), lanes := map["w1" := Idle, "w2" := Busy(1, 2, Working)], left := map[1 := 1]);
    s11 := s10.(db := OneJob(RECORDED, 601), lanes := map["w1" := Idle, "w2" := Idle]);
    SecondClaim(s9, s10);
  }

  lemma AddStep(states: seq<Sys>, acts: seq<Action>, a: Action, s': Sys)
    requires |states| > 0 && IsRun(states, acts) && Next(states[|states| - 1], a, s')
    ensures IsRun(states + [s'], acts + [a])
  {
    hide Next;
  }

  // A commit whose attempt dies before chaining can end with its job DONE and no calc job ever enqueued.
  lemma RetryCanForget() returns (states: seq<Sys>, acts: seq<Action>)
    ensures |states| > 0 && IsRun(states, acts)
    ensures var s := states[|states| - 1];
            s.data == 1 && s.db.jobs == map[1 := RECORDED] && RECORDED.status == DONE && RECORDED.kind != CALC
    ensures |states| == |acts| + 1 && !RecalculatedSince(states, acts, |acts|, 1)
  {
    hide Next, IsRun, RecalculatedSince;
    var s5;
    s5, states, acts := UntilCrash();
    ReapOfFirst(s5.db);
    var s6, s7, s8, s9 := ReapUninterrupted(s5);
    var s10, s11 := SecondAttempt(s9);
    AddStep(states, acts, ReapSupersede, s6);
    states, acts := states + [s6], acts + [ReapSupersede];
    AddStep(states, acts, ReapRequeue, s7);
    states, acts := states + [s7], acts + [ReapRequeue];
    AddStep(states, acts, ReapExpire, s8);
    states, acts := states + [s8], acts + [ReapExpire];
    AddStep(states, acts, ReapCommit, s9);
    states, acts := states + [s9], acts + [ReapCommit];
    AddStep(states, acts, Claim("w2", None, 1), s10);
    states, acts := states + [s10], acts + [Claim("w2", None, 1)];
    AddStep(states, acts, FinishOk("w2"), s11);
    states, acts := states + [s11], acts + [FinishOk("w2")];
    Lengths(states, acts);
    NoCalcAtAll(states, acts);
  }

  lemma NoCalcAtAll(states: seq<Sys>, acts: seq<Action>)
    requires |states| == |acts| + 1 && states[|acts|].db.jobs == map[1 := RECORDED]
    ensures !RecalculatedSince(states, acts, |acts|, 1)
  {
    assert RECORDED.kind != CALC;
  }

  // ---------------------------------------------------------------- a requeue that hits the index

  const STALE: Sys := STARTED.(db := OneJob(FIRST, 601))

  // The first attempt has been silent for longer than the reaper waits.
  lemma UntilStale() returns (states: seq<Sys>, acts: seq<Action>)
    ensures |states| > 0 && IsRun(states, acts) && states[|states| - 1] == STALE
  {
    hide Next;
    FirstClaim();
    assert Next(STARTED, Tick(601), STALE) by {
      Waiting();
    }
    states := [INIT, ENQUEUED, STARTED, STALE];
    acts := [Enqueue(KIND, None), Claim("w1", None, 1), Tick(601)];
  }

  lemma Waiting()
    ensures Next(STARTED, Tick(601), STALE)
  {
  }

  // The reaper looks and finds no other job of the kind; then one is enqueued.
  lemma SlipIn(s: Sys) returns (s1: Sys, s2: Sys)
    requires s == STALE
    ensures Next(s, ReapSupersede, s1) && Next(s1, Enqueue(KIND, None), s2)
    ensures s2.reap.Some? && s2.reap.value.stage == 1 && Meets(s2, 1, 2)
  {
    var own := Superseding(s.db.jobs, s.db.now);
    assert !IsQueued(s.db.jobs, KIND);
    assert 1 !in own;
    s1 := s.(reap := Some(Txn(s.db.now, 1, s.db.next, own)));
    s2 := s1.(db := Inserted(s.db, KIND, None));
  }

  lemma Aborting(s: Sys, s': Sys)
    requires OwnOk(s) && s.reap.Some? && s.reap.value.stage == 1 && Meets(s, 1, 2) && s' == s.(reap := None)
    ensures Next(s, ReapRequeue, s')
  {
    hide OneQueuedPerKind, Meets, OwnOk;
    MeetingBreaksRule(s, s.reap.value.own + Requeueing(RequeueView(s), s.reap.value.at), 1, 2);
  }

  // So the requeue does fail: in this run the reaper's second statement ends its transaction.
  lemma RequeueCanAbort() returns (states: seq<Sys>, acts: seq<Action>)
    ensures |acts| > 0 && IsRun(states, acts) && acts[|acts| - 1] == ReapRequeue
    ensures states[|acts| - 1].reap.Some? && states[|acts|].reap == None && states[|acts|].db == states[|acts| - 1].db
  {
    hide Next, IsRun, OwnOk, Meets, Inv;
    states, acts := UntilStale();
    var s1, s2 := SlipIn(STALE);
    AddStep(states, acts, ReapSupersede, s1);
    states, acts := states + [s1], acts + [ReapSupersede];
    AddStep(states, acts, Enqueue(KIND, None), s2);
    states, acts := states + [s2], acts + [Enqueue(KIND, None)];
    LastIsOk(states, acts);
    var s3 := s2.(reap := None);
    Aborting(s2, s3);
    AddStep(states, acts, ReapRequeue, s3);
    Lengths(states, acts);
    states, acts := states + [s3], acts + [ReapRequeue];
  }

  lemma Lengths(states: seq<Sys>, acts: seq<Action>)
    requires IsRun(states, acts)
    ensures |states| == |acts| + 1
  {
  }

  lemma LastIsOk(states: seq<Sys>, acts: seq<Action>)
    requires |states| > 0 && IsRun(states, acts)
    ensures OwnOk(states[|states| - 1])
  {
    hide Next;
    RunKeepsInv(states, acts, |states| - 1);
  }

  // ---------------------------------------------------------------- a heartbeat that comes late

  const AGAIN: Job := SECOND.(worker := Some("w1"))

  // The first worker gives up its lost attempt and claims the job once more.
  lemma ClaimAgain(s: Sys) returns (s1: Sys, s2: Sys, s3: Sys)
    requires s == STALE.(db := OneJob(BACK, 601))
    ensures Next(s, FinishOk("w1"), s1) && Next(s1, Claim("w1", None, 1), s2) && Next(s2, Tick(1), s3)
    ensures s3.db == OneJob(AGAIN, 602) && s3.reap == None
  {
    s1 := s.(lanes := map["w1" := Idle]);
    s2 := s1.(db := OneJob(AGAIN, 601), lanes := map["w1" := Busy(1, 2, Working)], left := map[1 := 0]);
    s3 := s2.(db := OneJob(AGAIN, 602));
    assert IsOldest(s1.db.jobs, None, 1);
  }

  lemma LateBeat(s: Sys, s': Sys)
    requires s.db == OneJob(AGAIN, 602) && s.reap == None && s' == s.(db := Beaten(s.db, 1, Some("w1")))
    ensures Next(s, Beat("w1", 1, 1), s') && s'.db != s.db && s.db.jobs[1].attempts == 2
  {
    assert s'.db.jobs[1].heartbeat == 602 && s.db.jobs[1].heartbeat == 601;
  }

  // The fence is the worker's name: a heartbeat of the first attempt counts for the second if the same worker holds it.
  lemma LateBeatCanCount() returns (states: seq<Sys>, acts: seq<Action>)
    ensures |acts| > 0 && |states| == |acts| + 1 && IsRun(states, acts)
    ensures var a, s := acts[|acts| - 1], states[|acts| - 1];
            a == Beat("w1", 1, 1) && states[|acts|].db != s.db && 1 in s.db.jobs && s.db.jobs[1].attempts == 2
  {
    hide Next, IsRun, Reaped, Beaten;
    states, acts := UntilStale();
    ReapOfFirst(STALE.db);
    var s4, s5, s6, s7 := ReapUninterrupted(STALE);
    var s8, s9, s10 := ClaimAgain(s7);
    var s11 := s10.(db := Beaten(s10.db, 1, Some("w1")));
    LateBeat(s10, s11);
    AddStep(states, acts, ReapSupersede, s4);
    states, acts := states + [s4], acts + [ReapSupersede];
    AddStep(states, acts, ReapRequeue, s5);
    states, acts := states + [s5], acts + [ReapRequeue];
    AddStep(states, acts, ReapExpire, s6);
    states, acts := states + [s6], acts + [ReapExpire];
    AddStep(states, acts, ReapCommit, s7);
    states, acts := states + [s7], acts + [ReapCommit];
    AddStep(states, acts, FinishOk("w1"), s8);
    states, acts := states + [s8], acts + [FinishOk("w1")];
    AddStep(states, acts, Claim("w1", None, 1), s9);
    states, acts := states + [s9], acts + [Claim("w1", None, 1)];
    AddStep(states, acts, Tick(1), s10);
    states, acts := states + [s10], acts + [Tick(1)];
    AddStep(states, acts, Beat("w1", 1, 1), s11);
    Lengths(states, acts);
    states, acts := states + [s11], acts + [Beat("w1", 1, 1)];
  }
}
