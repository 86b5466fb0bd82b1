// When committed data get their recalculation, and when they do not.
module JobRecalculation {
  import opened Jobs
  import opened JobRuns
  import opened Options

  // ---------------------------------------------------------------- one step

  // Job c carries the data of commit v: it is queued, or it left the queue no earlier than v and was not given up for another.
  ghost predicate Carries(s: Sys, c: nat, v: nat) {
    && c in s.db.jobs
    && s.db.jobs[c].kind == CALC
    && (s.db.jobs[c].status == QUEUED
        || (c in s.left && s.left[c] >= v && !(s.db.jobs[c].status == FAILED && s.db.jobs[c].error == Superseded)))
  }

  ghost predicate Carried(s: Sys, v: nat) {
    exists c :: Carries(s, c, v)
  }

  lemma CarriesOnRowStep(s: Sys, a: Action, s': Sys, c: nat, v: nat)
    requires OwnOk(s) && LeftOk(s) && Next(s, a, s') && OnRow(a)
    requires v <= s.data && Carries(s, c, v)
    ensures Carries(s', c, v)
  {
    hide Next, OwnOk;
    WhatRowStepsDo(s, a, s');
    WhatRowStepsNote(s, a, s', c);
    assert RowMayBecome(s.db.jobs[c], s'.db.jobs[c], s.db.now);
  }

  lemma CarriesElse(s: Sys, a: Action, s': Sys, c: nat, v: nat)
    requires RowsOk(s.db) && OwnOk(s) && Next(s, a, s') && !OnRow(a)
    requires v <= s.data && Carries(s, c, v)
    requires a.ReapCommit? && c in s.Own() ==> s.Own()[c].error != Superseded
    ensures Carries(s', c, v)
  {
    hide Next, RowsOk;
    WhatOtherStepsDo(s, a, s', c);
  }

  lemma CarriedStays(s: Sys, a: Action, s': Sys, v: nat)
    requires RowsOk(s.db) && OwnOk(s) && LeftOk(s) && SupersededOk(s) && Next(s, a, s')
    requires v <= s.data && Carried(s, v)
    ensures Carried(s', v)
  {
    hide Next, RowsOk, LeftOk;
    var c :| Carries(s, c, v);
    if OnRow(a) {
      CarriesOnRowStep(s, a, s', c, v);
    } else if a.ReapCommit? && c in s.Own() && s.Own()[c].error == Superseded {
      var q :| StandsIn(s, c, q);
      assert Carries(s, q, v);
      CarriesElse(s, a, s', q, v);
    } else {
      CarriesElse(s, a, s', c, v);
    }
  }

  // Changed data are committed, by a lane or aside.
  predicate Commits(a: Action) {
    a.Collect? || a.CommitAside?
  }

  lemma DataGrows(s: Sys, a: Action, s': Sys)
    requires Next(s, a, s')
    ensures s'.data == s.data + if Commits(a) then 1 else 0
  {
  }

  // The steps that put a calc into the queue, or find one there: a lane chains, somebody enqueues one with its slot free, or the
  // reaper commits one it has put back.
  ghost predicate Puts(s: Sys, a: Action) {
    || a.Chain?
    || (a.Enqueue? && a.kind == CALC && !SlotTaken(s.db.jobs, a.slot))
    || (a.ReapCommit? && IsQueued(s.Own(), CALC))
  }

  lemma PutsQueues(s: Sys, a: Action, s': Sys)
    requires OwnOk(s) && Next(s, a, s') && Puts(s, a)
    ensures IsQueued(s'.db.jobs, CALC)
  {
    if a.ReapCommit? {
      var i :| i in s.Own() && s.Own()[i].status == QUEUED && s.Own()[i].kind == CALC;
      assert s'.db.jobs[i] == s.Own()[i];
    } else if IsQueued(s.db.jobs, CALC) {
      assert s'.db.jobs == s.db.jobs;
    } else {
      assert s'.db.jobs[s.db.next] == NewJob(CALC, if a.Chain? then None else a.slot, s.db.now);
    }
  }

  lemma NewRowIsPut(s: Sys, a: Action, s': Sys, i: nat)
    requires OwnOk(s) && Next(s, a, s') && i in s'.db.jobs && i !in s.db.jobs && s'.db.jobs[i].kind == CALC
    ensures Puts(s, a)
  {
  }

  // No other step does.
  lemma OnlyPutsQueue(s: Sys, a: Action, s': Sys)
    requires RowsOk(s.db) && OwnOk(s) && Next(s, a, s') && IsQueued(s'.db.jobs, CALC)
    ensures IsQueued(s.db.jobs, CALC) || Puts(s, a)
  {
    hide Next, RowsOk, Puts;
    var i :| i in s'.db.jobs && s'.db.jobs[i].status == QUEUED && s'.db.jobs[i].kind == CALC;
    if OnRow(a) {
      WhatRowStepsDo(s, a, s');
      assert RowMayBecome(s.db.jobs[i], s'.db.jobs[i], s.db.now);
    } else if i in s.db.jobs {
      WhatOtherStepsDo(s, a, s', i);
      if a.ReapCommit? && i in s.Own() {
        CommitPuts(s, a, i);
      }
    } else {
      NewRowIsPut(s, a, s', i);
    }
  }

  lemma CommitPuts(s: Sys, a: Action, i: nat)
    requires i in s.Own() && s.Own()[i].status == QUEUED && s.Own()[i].kind == CALC && a.ReapCommit?
    ensures Puts(s, a)
  {
  }

  // ---------------------------------------------------------------- over a run

  lemma {:induction false} DataGrowsOver(states: seq<Sys>, acts: seq<Action>, m: nat, n: nat)
    requires IsRun(states, acts) && m <= n < |states|
    ensures states[m].data <= states[n].data
  {
    hide Next;
    if m < n {
      DataGrowsOver(states, acts, m, n - 1);
      DataGrows(states[n - 1], acts[n - 1], states[n]);
    }
  }

  lemma KindStep(s: Sys, a: Action, s': Sys, i: nat)
    requires RowsOk(s.db) && OwnOk(s) && Next(s, a, s') && i in s.db.jobs
    ensures i in s'.db.jobs && s'.db.jobs[i].kind == s.db.jobs[i].kind
  {
    hide Next, RowsOk;
    if OnRow(a) {
      WhatRowStepsDo(s, a, s');
      assert RowMayBecome(s.db.jobs[i], s'.db.jobs[i], s.db.now);
    } else {
      WhatOtherStepsDo(s, a, s', i);
    }
  }

  lemma {:induction false} KindStays(states: seq<Sys>, acts: seq<Action>, m: nat, n: nat, i: nat)
    requires IsRun(states, acts) && m <= n < |states| && i in states[m].db.jobs
    ensures i in states[n].db.jobs && states[n].db.jobs[i].kind == states[m].db.jobs[i].kind
  {
    hide Next, RowsOk, OwnOk;
    if m < n {
      KindStays(states, acts, m, n - 1, i);
      RunKeepsInv(states, acts, n - 1);
      KindStep(states[n - 1], acts[n - 1], states[n], i);
    }
  }

  // A moment m before n at which job c left the queue, the data of commit v being there already.
  ghost predicate LeftAfter(states: seq<Sys>, acts: seq<Action>, m: nat, c: nat, v: nat)
    requires |states| == |acts| + 1
  {
    && m < |acts|
    && ((acts[m].Claim? && acts[m].id == c) || (acts[m].Cancel? && acts[m].id == c))
    && c in states[m].db.jobs && states[m].db.jobs[c].status == QUEUED
    && states[m].data >= v
  }

  lemma LeftStep(s: Sys, a: Action, s': Sys, c: nat)
    requires Next(s, a, s') && c in s'.left && !(c in s.left && s'.left[c] == s.left[c])
    ensures ((a.Claim? && a.id == c) || (a.Cancel? && a.id == c)) && s'.left[c] == s.data
    ensures c in s.db.jobs && s.db.jobs[c].status == QUEUED
  {
  }

  lemma {:induction false} LeftWasReal(states: seq<Sys>, acts: seq<Action>, n: nat, c: nat)
    requires IsRun(states, acts) && n < |states| && c in states[n].left
    ensures exists m: nat :: m < n && LeftAfter(states, acts, m, c, states[n].left[c])
  {
    hide Next;
    if n > 0 {
      assert Next(states[n - 1], acts[n - 1], states[n]);
      if c in states[n - 1].left && states[n].left[c] == states[n - 1].left[c] {
        LeftWasReal(states, acts, n - 1, c);
      } else {
        LeftStep(states[n - 1], acts[n - 1], states[n], c);
        assert LeftAfter(states, acts, n - 1, c, states[n].left[c]);
      }
    }
  }

  ghost predicate CalcQueuedSince(states: seq<Sys>, acts: seq<Action>, n: nat, c: nat, v: nat)
    requires |states| == |acts| + 1 && n < |states|
  {
    && c in states[n].db.jobs
    && states[n].db.jobs[c].kind == CALC
    && (states[n].db.jobs[c].status == QUEUED
        || ((exists m: nat :: m < n && LeftAfter(states, acts, m, c, v))
            && !(states[n].db.jobs[c].status == FAILED && states[n].db.jobs[c].error == Superseded)))
  }

  ghost predicate RecalculatedSince(states: seq<Sys>, acts: seq<Action>, n: nat, v: nat)
    requires |states| == |acts| + 1 && n < |states|
  {
    exists c: nat :: CalcQueuedSince(states, acts, n, c, v)
  }

  // What is carried is a calc that is queued, or was queued after the commit and then left.
  lemma CarriedIsQueuedSince(states: seq<Sys>, acts: seq<Action>, n: nat, v: nat)
    requires IsRun(states, acts) && n < |states| && Carried(states[n], v)
    ensures RecalculatedSince(states, acts, n, v)
  {
    hide Next;
    var c :| Carries(states[n], c, v);
    if states[n].db.jobs[c].status != QUEUED {
      LeftWasReal(states, acts, n, c);
      var m: nat :| m < n && LeftAfter(states, acts, m, c, states[n].left[c]);
      assert LeftAfter(states, acts, m, c, v);
    }
    assert CalcQueuedSince(states, acts, n, c, v);
  }

  lemma {:induction false} CarriedOn(states: seq<Sys>, acts: seq<Action>, t: nat, n: nat, v: nat)
    requires IsRun(states, acts) && t <= n < |states| && v <= states[t].data && Carried(states[t], v)
    ensures Carried(states[n], v)
  {
    hide Next, RowsOk, OwnOk, LeftOk, SupersededOk, Carried;
    if t < n {
      CarriedOn(states, acts, t, n - 1, v);
      DataGrowsOver(states, acts, t, n - 1);
      RunKeepsInv(states, acts, n - 1);
      CarriedStays(states[n - 1], acts[n - 1], states[n], v);
    }
  }

  lemma QueuedIsCarried(s: Sys, v: nat)
    requires IsQueued(s.db.jobs, CALC)
    ensures Carried(s, v)
  {
    var c :| c in s.db.jobs && s.db.jobs[c].status == QUEUED && s.db.jobs[c].kind == CALC;
    assert Carries(s, c, v);
  }

  // A calc put between the two moments.
  ghost predicate PutBetween(states: seq<Sys>, acts: seq<Action>, m: nat, n: nat)
    requires |states| == |acts| + 1 && n < |states|
  {
    exists r :: m <= r < n && Puts(states[r], acts[r])
  }

  // A calc that is queued was queued before, or has been put since.
  lemma {:induction false} QueuedWasPut(states: seq<Sys>, acts: seq<Action>, m: nat, n: nat)
    requires IsRun(states, acts) && m <= n < |states| && IsQueued(states[n].db.jobs, CALC)
    ensures IsQueued(states[m].db.jobs, CALC) || PutBetween(states, acts, m, n)
  {
    hide Next, RowsOk, OwnOk, IsQueued, Puts;
    if m < n && !IsQueued(states[m].db.jobs, CALC) {
      RunKeepsInv(states, acts, n - 1);
      if IsQueued(states[n - 1].db.jobs, CALC) {
        QueuedWasPut(states, acts, m, n - 1);
      } else {
        OnlyPutsQueue(states[n - 1], acts[n - 1], states[n]);
        assert Puts(states[n - 1], acts[n - 1]);
      }
    }
  }

  // Changed data have their recalculation if and only if a calc waits when they are committed, or one is put into the queue
  // afterwards; otherwise they are lost, whatever becomes of the job that collected them.
  lemma CommitCarriedIff(states: seq<Sys>, acts: seq<Action>, m: nat, n: nat)
    requires IsRun(states, acts) && m < n < |states| && Commits(acts[m])
    ensures RecalculatedSince(states, acts, n, states[m + 1].data)
            <==> IsQueued(states[m + 1].db.jobs, CALC) || PutBetween(states, acts, m + 1, n)
  {
    hide Next, IsQueued, Puts, Carried;
    var v := states[m + 1].data;
    if c: nat :| CalcQueuedSince(states, acts, n, c, v) {
      QueuedSinceWasPut(states, acts, m, n, c);
    }
    if IsQueued(states[m + 1].db.jobs, CALC) {
      QueuedIsCarried(states[m + 1], v);
      CarriedOn(states, acts, m + 1, n, v);
      CarriedIsQueuedSince(states, acts, n, v);
    } else if PutBetween(states, acts, m + 1, n) {
      var r: nat :| m + 1 <= r < n && Puts(states[r], acts[r]);
      PutIsCarried(states, acts, r, v);
      DataGrowsOver(states, acts, m + 1, r + 1);
      CarriedOn(states, acts, r + 1, n, v);
      CarriedIsQueuedSince(states, acts, n, v);
    }
  }

  lemma PutIsCarried(states: seq<Sys>, acts: seq<Action>, r: nat, v: nat)
    requires IsRun(states, acts) && r < |acts| && Puts(states[r], acts[r])
    ensures Carried(states[r + 1], v)
  {
    hide Next, RowsOk, OwnOk;
    RunKeepsInv(states, acts, r);
    PutsQueues(states[r], acts[r], states[r + 1]);
    QueuedIsCarried(states[r + 1], v);
  }

  lemma QueuedSinceWasPut(states: seq<Sys>, acts: seq<Action>, m: nat, n: nat, c: nat)
    requires IsRun(states, acts) && m < n < |states| && Commits(acts[m])
    requires CalcQueuedSince(states, acts, n, c, states[m + 1].data)
    ensures IsQueued(states[m + 1].db.jobs, CALC) || PutBetween(states, acts, m + 1, n)
  {
    hide Next, Puts;
    if states[n].db.jobs[c].status == QUEUED {
      QueuedWasPut(states, acts, m + 1, n);
    } else {
      var t: nat :| t < n && LeftAfter(states, acts, t, c, states[m + 1].data);
      DataGrows(states[m], acts[m], states[m + 1]);
      if t <= m {
        DataGrowsOver(states, acts, t, m);
      }
      KindStays(states, acts, t, n, c);
      assert IsQueued(states[t].db.jobs, CALC);
      QueuedWasPut(states, acts, m + 1, t);
    }
  }

  // ---------------------------------------------------------------- attempts that chain

  // Commit v was made at moment m.
  ghost predicate CommitsAt(states: seq<Sys>, acts: seq<Action>, m: nat, v: nat)
    requires |states| == |acts| + 1
  {
    m < |acts| && acts[m].Collect? && states[m + 1].data == v
  }

  ghost predicate CommittedBefore(states: seq<Sys>, acts: seq<Action>, n: nat, v: nat)
    requires |states| == |acts| + 1
  {
    exists m: nat :: m < n && CommitsAt(states, acts, m, v)
  }

  ghost predicate ChainsAt(states: seq<Sys>, acts: seq<Action>, r: nat, v: nat)
    requires |states| == |acts| + 1
  {
    r < |acts| && acts[r].Chain? && CommittedBefore(states, acts, r, v)
  }

  ghost predicate ChainedBefore(states: seq<Sys>, acts: seq<Action>, n: nat, v: nat)
    requires |states| == |acts| + 1
  {
    exists r: nat :: r < n && ChainsAt(states, acts, r, v)
  }

  lemma CommittedStays(states: seq<Sys>, acts: seq<Action>, n: nat, v: nat)
    requires |states| == |acts| + 1 && CommittedBefore(states, acts, n, v)
    ensures CommittedBefore(states, acts, n + 1, v)
  {
    var m: nat :| m < n && CommitsAt(states, acts, m, v);
  }

  lemma ChainedStays(states: seq<Sys>, acts: seq<Action>, n: nat, v: nat)
    requires |states| == |acts| + 1 && ChainedBefore(states, acts, n, v)
    ensures ChainedBefore(states, acts, n + 1, v)
  {
    var r: nat :| r < n && ChainsAt(states, acts, r, v);
  }

  // Where the phases of lanes and the debts come from.
  lemma WhatStepsOwe(s: Sys, a: Action, s': Sys, w: string)
    requires Next(s, a, s')
    ensures s'.Lane(w).Busy? && s'.Lane(w).phase.Collected? && s'.Lane(w) != s.Lane(w) ==>
              a.Collect? && s'.Lane(w).phase.version == s'.data
    ensures s'.Lane(w).Busy? && s'.Lane(w).phase.Chained? && s'.Lane(w) != s.Lane(w) ==>
              a.Chain? && s.Lane(w).Busy? && s.Lane(w).phase == Collected(s'.Lane(w).phase.version)
    ensures forall v :: v in s'.owed && v !in s.owed ==> a.FinishOk? && s.Lane(a.w).Busy? && s.Lane(a.w).phase == Chained(v)
  {
  }

  ghost predicate LaneTold(states: seq<Sys>, acts: seq<Action>, n: nat, w: string)
    requires |states| == |acts| + 1 && n < |states|
  {
    var l := states[n].Lane(w);
    && (l.Busy? && l.phase.Collected? ==> CommittedBefore(states, acts, n, l.phase.version))
    && (l.Busy? && l.phase.Chained? ==> ChainedBefore(states, acts, n, l.phase.version))
  }

  lemma {:induction false} LanesTold(states: seq<Sys>, acts: seq<Action>, n: nat, w: string)
    requires IsRun(states, acts) && n < |states|
    ensures LaneTold(states, acts, n, w)
  {
    hide Next, CommittedBefore, ChainedBefore;
    if n > 0 {
      LanesTold(states, acts, n - 1, w);
      WhatStepsOwe(states[n - 1], acts[n - 1], states[n], w);
      var before, l := states[n - 1].Lane(w), states[n].Lane(w);
      if l.Busy? && l.phase.Collected? {
        if l == before {
          CommittedStays(states, acts, n - 1, l.phase.version);
        } else {
          JustCommitted(states, acts, n - 1);
        }
      } else if l.Busy? && l.phase.Chained? {
        if l == before {
          ChainedStays(states, acts, n - 1, l.phase.version);
        } else {
          JustChained(states, acts, n - 1, l.phase.version);
        }
      }
    }
  }

  lemma JustCommitted(states: seq<Sys>, acts: seq<Action>, m: nat)
    requires |states| == |acts| + 1 && m < |acts| && acts[m].Collect?
    ensures CommittedBefore(states, acts, m + 1, states[m + 1].data)
  {
    assert CommitsAt(states, acts, m, states[m + 1].data);
  }

  lemma JustChained(states: seq<Sys>, acts: seq<Action>, r: nat, v: nat)
    requires |states| == |acts| + 1 && r < |acts| && acts[r].Chain? && CommittedBefore(states, acts, r, v)
    ensures ChainedBefore(states, acts, r + 1, v)
  {
    assert ChainsAt(states, acts, r, v);
  }

  // A commit whose job was recorded DONE by the lane that chained it.
  lemma {:induction false} DebtsWereChained(states: seq<Sys>, acts: seq<Action>, n: nat, v: nat)
    requires IsRun(states, acts) && n < |states| && v in states[n].owed
    ensures ChainedBefore(states, acts, n, v)
  {
    hide Next, CommittedBefore, ChainedBefore;
    if n > 0 {
      if v in states[n - 1].owed {
        DebtsWereChained(states, acts, n - 1, v);
      } else {
        WhatStepsOwe(states[n - 1], acts[n - 1], states[n], "");
        LanesTold(states, acts, n - 1, acts[n - 1].w);
      }
      ChainedStays(states, acts, n - 1, v);
    }
  }

  // Once an attempt has chained, its data have their recalculation, whether or not the attempt is recorded.
  lemma ChainedIsNotLost(states: seq<Sys>, acts: seq<Action>, n: nat, v: nat)
    requires IsRun(states, acts) && n < |states| && ChainedBefore(states, acts, n, v)
    ensures RecalculatedSince(states, acts, n, v)
  {
    hide Next, RecalculatedSince;
    var r: nat :| r < n && ChainsAt(states, acts, r, v);
    var m: nat :| m < r && CommitsAt(states, acts, m, v);
    assert Puts(states[r], acts[r]);
    CommitCarriedIff(states, acts, m, n);
  }

  // Whenever a collection job is recorded DONE after chaining, some calc job is still queued, or was queued after the data was
  // committed and then claimed or cancelled; and that job was not given up in favour of another.
  lemma NoRecalculationLost(states: seq<Sys>, acts: seq<Action>, n: nat, v: nat)
    requires IsRun(states, acts) && n < |states| && v in states[n].owed
    ensures RecalculatedSince(states, acts, n, v)
  {
    hide Next, RecalculatedSince, ChainedBefore;
    DebtsWereChained(states, acts, n, v);
    ChainedIsNotLost(states, acts, n, v);
  }
}
