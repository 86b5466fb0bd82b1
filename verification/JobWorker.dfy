// One execution of a claimed job from its result to the records it leaves: chain, then finish, then close what is left open.
module JobWorker {
  import opened Jobs
  import opened JobStore
  import opened Options
  import Scheduler

  // What the registry says of a kind: whether new data of it call for a recalculation, and the kinds that follow it.
  datatype Spec = Spec(recalc: bool, next: seq<Kind>)

  // How the work itself ends: with an exception, or with a result that names the state of its collection runs.
  datatype Work = Raised | Returned(collected: seq<Status>, changed: bool)

  // A collector may note its failure in its runs and return all the same: with runs, all of them failed, the job has failed too.
  predicate Succeeds(work: Work) {
    work.Returned? && (work.collected == [] || exists i :: 0 <= i < |work.collected| && work.collected[i] != FAILED)
  }

  predicate Recalculates(spec: Spec, wanted: bool, work: Work) {
    spec.recalc && wanted && work.Returned? && work.changed
  }

  // Every row is as before, but for new ones that wait in the queue.
  ghost predicate OnlyMore(before: Db, after: Db) {
    && before.next <= after.next && after.now == before.now && after.runs == before.runs
    && (forall i :: i in before.jobs ==> i in after.jobs && after.jobs[i] == before.jobs[i])
    && (forall i :: i in after.jobs && i !in before.jobs ==> i >= before.next && after.jobs[i].status == QUEUED)
  }

  // The new ones are of the given kinds and have no slot.
  ghost predicate OnlyQueuedMore(before: Db, after: Db, kinds: set<Kind>) {
    && OnlyMore(before, after)
    && (forall i :: i in after.jobs && i !in before.jobs ==> after.jobs[i].kind in kinds && after.jobs[i].slot.None?)
  }

  lemma QueuedStays(before: Db, after: Db, kinds: set<Kind>, kind: Kind)
    requires OnlyQueuedMore(before, after, kinds) && IsQueued(before.jobs, kind)
    ensures IsQueued(after.jobs, kind)
  {
  }

  // A job of the kind waits afterwards, whether it was put there now or did so already.
  method Chain(store: Store, kind: Kind)
    requires store.Valid()
    modifies store`jobs, store`next
    ensures store.Valid() && IsQueued(store.jobs, kind)
    ensures OnlyQueuedMore(old(store.View()), store.View(), {kind})
  {
    var r := store.Enqueue(kind, None);
    if r.Queued? {
      assert store.jobs[r.id] == NewJob(kind, None, store.now);
    }
  }

  method ChainAll(store: Store, kinds: seq<Kind>)
    requires store.Valid()
    modifies store`jobs, store`next
    ensures store.Valid() && forall k :: k in kinds ==> IsQueued(store.jobs, k)
    ensures OnlyQueuedMore(old(store.View()), store.View(), KindsOf(kinds))
  {
    var i := 0;
    while i < |kinds|
      invariant 0 <= i <= |kinds|
      invariant store.Valid() && forall k :: k in kinds[..i] ==> IsQueued(store.jobs, k)
      invariant OnlyQueuedMore(old(store.View()), store.View(), KindsOf(kinds))
    {
      ghost var before := store.View();
      Chain(store, kinds[i]);
      forall k | k in kinds[..i] ensures IsQueued(store.jobs, k) {
        QueuedStays(before, store.View(), {kinds[i]}, k);
      }
      i := i + 1;
    }
  }

  ghost function KindsOf(kinds: seq<Kind>): set<Kind> {
    set k | k in kinds
  }

  // The kinds a success may put into the queue: a calculation only if one is called for.
  ghost function Following(spec: Spec, again: bool): set<Kind> {
    (if again then {CALC} else {}) + KindsOf(spec.next)
  }

  // Everything that is to follow waits in the queue.
  ghost predicate FollowsUp(jobs: map<nat, Job>, spec: Spec, again: bool) {
    (again ==> IsQueued(jobs, CALC)) && forall k :: k in spec.next ==> IsQueued(jobs, k)
  }

  lemma MoreTwice(a: Db, b: Db, c: Db, first: set<Kind>, second: set<Kind>)
    requires OnlyQueuedMore(a, b, first) && OnlyQueuedMore(b, c, second)
    ensures OnlyQueuedMore(a, c, first + second)
  {
  }

  method FollowUp(store: Store, spec: Spec, again: bool)
    requires store.Valid()
    modifies store`jobs, store`next
    ensures store.Valid() && FollowsUp(store.jobs, spec, again)
    ensures OnlyQueuedMore(old(store.View()), store.View(), Following(spec, again))
  {
    hide OnlyQueuedMore, IsQueued;
    ghost var first := store.View();
    NoneMore(first);
    if again {
      Chain(store, CALC);
    }
    ghost var before := store.View();
    ChainAll(store, spec.next);
    MoreTwice(first, before, store.View(), if again then {CALC} else {}, KindsOf(spec.next));
    if again {
      QueuedStays(before, store.View(), KindsOf(spec.next), CALC);
    }
  }

  lemma NoneMore(db: Db)
    ensures OnlyQueuedMore(db, db, {})
  {
  }

  // A failure: recorded, and the job's open records closed, only if the job was still owned.
  function Ended(db: Db, jid: nat, w: Option<string>): Db {
    if Owned(db.jobs, jid, w)
    then Finished(db, jid, w, false).(runs := ClosedRuns(db.runs, {jid}))
    else db
  }

  lemma FinishKeepsFollowUp(db: Db, jid: nat, w: Option<string>, spec: Spec, again: bool)
    requires FollowsUp(db.jobs, spec, again)
    ensures FollowsUp(Finished(db, jid, w, true).jobs, spec, again)
  {
    hide Finished, IsQueued;
    forall k | IsQueued(db.jobs, k) ensures IsQueued(Finished(db, jid, w, true).jobs, k) {
      FinishedStaysQueued(db, jid, w, true, k);
    }
  }

  lemma FinishedStaysQueued(db: Db, jid: nat, w: Option<string>, ok: bool, kind: Kind)
    requires IsQueued(db.jobs, kind)
    ensures IsQueued(Finished(db, jid, w, ok).jobs, kind)
  {
    var i :| i in db.jobs && db.jobs[i].status == QUEUED && db.jobs[i].kind == kind;
    assert Finished(db, jid, w, ok).jobs[i] == db.jobs[i];
  }

  // Every new row is of one of the kinds.
  ghost predicate NewKinds(before: map<nat, Job>, after: map<nat, Job>, kinds: set<Kind>) {
    forall i :: i in after && i !in before ==> after[i].kind in kinds
  }

  lemma Followed(first: Db, chained: Db, spec: Spec, again: bool, jid: nat, w: Option<string>)
    requires OnlyQueuedMore(first, chained, Following(spec, again))
    requires FollowsUp(Finished(chained, jid, w, true).jobs, spec, again)
    ensures again ==> IsQueued(Finished(chained, jid, w, true).jobs, CALC)
    ensures forall k :: k in spec.next ==> IsQueued(Finished(chained, jid, w, true).jobs, k)
    ensures !again ==> NewKinds(first.jobs, Finished(chained, jid, w, true).jobs, KindsOf(spec.next))
    ensures OnlyQueuedMore(first, chained, {CALC} + KindsOf(spec.next))
    ensures Owned(first.jobs, jid, w) ==> Owned(chained.jobs, jid, w)
  {
    hide IsQueued;
  }

  // A success has everything that follows waiting before it is recorded; a failure of a job no longer owned changes nothing at all.
  method Execute(store: Store, jid: nat, spec: Spec, wanted: bool, work: Work, w: Option<string>)
    returns (ok: bool, ghost chained: Db)
    requires store.Valid()
    modifies store
    ensures store.Valid()
    ensures ok <==> work.Returned? && (work.collected == [] || exists i :: 0 <= i < |work.collected| && work.collected[i] != FAILED)
    ensures ok && spec.recalc && wanted && work.changed ==> IsQueued(store.jobs, "calc")
    ensures ok ==> forall k :: k in spec.next ==> IsQueued(store.jobs, k)
    ensures ok && !(spec.recalc && wanted && work.changed) ==> NewKinds(old(store.jobs), store.jobs, KindsOf(spec.next))
    ensures ok ==> OnlyQueuedMore(old(store.View()), chained, {"calc"} + KindsOf(spec.next))
    ensures ok ==> store.View() == Finished(chained, jid, w, true)
    ensures Owned(old(store.jobs), jid, w) ==> jid in store.jobs && store.jobs[jid].status == if ok then DONE else FAILED
    ensures !ok ==> store.View() == Ended(old(store.View()), jid, w)
  {
    hide OnlyQueuedMore, FollowsUp, Following, ClosedRuns, NewKinds;
    ok := Succeeds(work);
    chained := store.View();
    if ok {
      FollowUp(store, spec, Recalculates(spec, wanted, work));
      chained := store.View();
      var _ := store.Finish(jid, true, w);
      FinishKeepsFollowUp(chained, jid, w, spec, Recalculates(spec, wanted, work));
      Followed(old(store.View()), chained, spec, Recalculates(spec, wanted, work), jid, w);
    } else {
      var owned := store.Finish(jid, false, w);
      if owned {
        var _ := store.CloseRuns({jid});
      }
    }
  }

  // ---------------------------------------------------------------- the schedule tick

  // The slot has its job, or the kind waits already; that the kind is running provides for nothing.
  ghost predicate Provided(jobs: map<nat, Job>, kind: Kind, text: string) {
    || (exists i :: i in jobs && jobs[i].slot == Some(text))
    || (exists i :: i in jobs && jobs[i].status == QUEUED && jobs[i].kind == kind)
  }

  lemma ProvidedStays(first: Db, before: Db, after: Db, slots: seq<Scheduler.Slot>, missing: Kind -> bool, name: Scheduler.Slot -> string)
    requires OnlyMore(first, before) && OnlyMore(before, after)
    requires AllProvided(before.jobs, slots, missing, name)
    ensures OnlyMore(first, after) && AllProvided(after.jobs, slots, missing, name)
  {
    forall s | s in slots && !missing(s.kind) ensures Provided(after.jobs, s.kind, name(s)) {
      assert Provided(before.jobs, s.kind, name(s));
    }
  }

  ghost predicate AllProvided(jobs: map<nat, Job>, slots: seq<Scheduler.Slot>, missing: Kind -> bool, name: Scheduler.Slot -> string) {
    forall s :: s in slots && !missing(s.kind) ==> Provided(jobs, s.kind, name(s))
  }

  lemma OneMoreProvided(jobs: map<nat, Job>, slots: seq<Scheduler.Slot>, s: Scheduler.Slot, missing: Kind -> bool,
                        name: Scheduler.Slot -> string)
    requires AllProvided(jobs, slots, missing, name) && (missing(s.kind) || Provided(jobs, s.kind, name(s)))
    ensures AllProvided(jobs, slots + [s], missing, name)
  {
    hide Provided;
  }

  method Provide(store: Store, kind: Kind, text: string)
    requires store.Valid()
    modifies store`jobs, store`next
    ensures store.Valid() && OnlyMore(old(store.View()), store.View()) && Provided(store.jobs, kind, text)
    ensures forall i :: i in store.jobs && i !in old(store.jobs) ==> store.jobs[i].kind == kind && store.jobs[i].slot == Some(text)
  {
    var r := store.TryEnqueueSlot(kind, text);
    if r.Some? {
      assert store.jobs[r.value] == NewJob(kind, Some(text), store.now);
    }
  }

  lemma NothingMore(db: Db)
    ensures OnlyMore(db, db)
  {
  }

  // The job is for a due slot of one of the entries, of a kind that has what it needs.
  ghost predicate CalledFor(j: Job, now: int, entries: seq<Scheduler.Entry>, missing: Kind -> bool, name: Scheduler.Slot -> string) {
    exists e, t :: e in entries && Scheduler.Occurs(e, t) && Scheduler.IsDue(now, t) && !missing(e.kind)
                   && j.kind == e.kind && j.slot == Some(name(Scheduler.Slot(e.kind, t)))
  }

  ghost predicate NewCalledFor(before: map<nat, Job>, after: map<nat, Job>, now: int, entries: seq<Scheduler.Entry>,
                               missing: Kind -> bool, name: Scheduler.Slot -> string) {
    forall i :: i in after && i !in before ==> CalledFor(after[i], now, entries, missing, name)
  }

  lemma OneMoreCalledFor(first: Db, before: Db, after: Db, now: int, entries: seq<Scheduler.Entry>, missing: Kind -> bool,
                         name: Scheduler.Slot -> string)
    requires NewCalledFor(first.jobs, before.jobs, now, entries, missing, name) && OnlyMore(before, after)
    requires forall i :: i in after.jobs && i !in before.jobs ==> CalledFor(after.jobs[i], now, entries, missing, name)
    ensures NewCalledFor(first.jobs, after.jobs, now, entries, missing, name)
  {
    hide CalledFor;
  }

  lemma NothingCalledFor(jobs: map<nat, Job>, now: int, entries: seq<Scheduler.Entry>, missing: Kind -> bool,
                         name: Scheduler.Slot -> string)
    ensures NewCalledFor(jobs, jobs, now, entries, missing, name)
  {
  }

  // Every due slot of a kind that has what it needs is provided for; a job is put in for such slots only, and the table never
  // holds two jobs of one slot.
  method ScheduleTick(store: Store, now: int, entries: seq<Scheduler.Entry>, missing: Kind -> bool, name: Scheduler.Slot -> string)
    requires store.Valid() && forall e :: e in entries ==> e.Valid()
    modifies store`jobs, store`next
    ensures store.Valid() && OneJobPerSlot(store.jobs) && OnlyMore(old(store.View()), store.View())
    ensures forall e, t :: e in entries && Scheduler.Occurs(e, t) && Scheduler.IsDue(now, t) && !missing(e.kind) ==>
              Provided(store.jobs, e.kind, name(Scheduler.Slot(e.kind, t)))
    ensures NewCalledFor(old(store.jobs), store.jobs, now, entries, missing, name)
  {
    hide OnlyMore, Provided, OneQueuedPerKind, OneRunningPerKind, OneJobPerSlot, NewCalledFor, Scheduler.Occurs, Scheduler.IsDue;
    var slots := Scheduler.Due(now, entries);
    NothingMore(store.View());
    NothingCalledFor(store.jobs, now, entries, missing, name);
    var i := 0;
    while i < |slots|
      invariant 0 <= i <= |slots|
      invariant store.Valid() && OnlyMore(old(store.View()), store.View())
      invariant AllProvided(store.jobs, slots[..i], missing, name)
      invariant NewCalledFor(old(store.jobs), store.jobs, now, entries, missing, name)
    {
      var s := slots[i];
      assert slots[..i + 1] == slots[..i] + [s];
      if !missing(s.kind) {
        ghost var before := store.View();
        Provide(store, s.kind, name(s));
        ProvidedStays(old(store.View()), before, store.View(), slots[..i], missing, name);
        OneMoreCalledFor(old(store.View()), before, store.View(), now, entries, missing, name);
      }
      OneMoreProvided(store.jobs, slots[..i], s, missing, name);
      i := i + 1;
    }
    assert slots[..i] == slots;
  }
}
