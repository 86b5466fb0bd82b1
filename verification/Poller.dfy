// Fetching again at intervals while the page is seen: loads overlap when the reader comes back, yet one chain of timers goes on.
module Poller {
  import opened Options

  // gen, stopped and timer are the closure's own variables. pending are the timers the event loop still holds, flights the loads
  // not yet settled, each known by the generation it was started with; loads counts the loads ever started.
  datatype State = State(gen: nat, stopped: bool, timer: Option<nat>, pending: set<nat>, flights: set<nat>, nextTimer: nat, loads: nat)

  datatype Event =
    | Kick
    | Stop
    | Fire(id: nat)                                  // the event loop runs a pending timer
    | Settle(my: nat, again: bool, visible: bool)    // a load is done
    | Reject(my: nat)                                // a load fails: its chain ends

  // ---------------------------------------------------------------- what each event does

  ghost function Cleared(s: State): State {
    if s.timer.Some? then s.(pending := s.pending - {s.timer.value}) else s
  }

  ghost function Started(s: State): State {
    Cleared(s).(gen := s.gen + 1, timer := None, flights := s.flights + {s.gen + 1}, loads := s.loads + 1)
  }

  ghost function Stopping(s: State): State {
    Cleared(s).(stopped := true, gen := s.gen + 1)
  }

  ghost function Settled(s: State, my: nat, again: bool, visible: bool): State {
    var t := s.(flights := s.flights - {my});
    if s.stopped || my != s.gen || !again || !visible then t
    else t.(timer := Some(s.nextTimer), pending := s.pending + {s.nextTimer}, nextTimer := s.nextTimer + 1)
  }

  ghost predicate Next(s: State, e: Event, s': State) {
    match e
    case Kick => s' == if s.stopped then s else Started(s)
    case Stop => s' == Stopping(s)
    case Fire(id) => id in s.pending && s' == Started(s.(pending := s.pending - {id}))
    case Settle(my, again, visible) => my in s.flights && s' == Settled(s, my, again, visible)
    case Reject(my) => my in s.flights && s' == s.(flights := s.flights - {my})
  }

  ghost const START: State := Started(State(0, false, None, {}, {}, 1, 0))

  // ---------------------------------------------------------------- the closure

  class Poll {
    var gen: nat
    var stopped: bool
    var timer: Option<nat>
    var pending: set<nat>
    var flights: set<nat>
    var nextTimer: nat
    var loads: nat

    function View(): State
      reads this
    {
      State(gen, stopped, timer, pending, flights, nextTimer, loads)
    }

    constructor ()
      ensures View() == START
    {
      gen, stopped, timer, pending, flights, nextTimer, loads := 0, false, None, {}, {}, 1, 0;
      new;
      Run();
    }

    // Up to the point where the load is awaited.
    method Run()
      modifies this
      ensures View() == Started(old(View()))
      ensures gen == old(gen) + 1 && gen in flights && loads == old(loads) + 1 && stopped == old(stopped)
      ensures timer == None && forall id :: id in pending <==> id in old(pending) && old(timer) != Some(id)
      ensures Inv(old(View())) && !stopped ==> Inv(View()) && forall my :: my in old(flights) ==> my < gen
    {
      gen := gen + 1;
      if timer.Some? {
        pending, timer := pending - {timer.value}, None;
      }
      flights, loads := flights + {gen}, loads + 1;
    }

    // What follows the await.
    method Resume(my: nat, again: bool, visible: bool)
      modifies this
      ensures View() == Settled(old(View()), my, again, visible)
      ensures Inv(old(View())) && my in old(flights) ==> Inv(View())
      ensures if !stopped && my == gen && again && visible
              then timer == Some(old(nextTimer)) && pending == old(pending) + {old(nextTimer)}
              else timer == old(timer) && pending == old(pending)
      ensures flights == old(flights) - {my} && gen == old(gen) && stopped == old(stopped) && loads == old(loads)
    {
      flights := flights - {my};
      if stopped || my != gen {
        return;
      }
      if again && visible {
        timer, pending, nextTimer := Some(nextTimer), pending + {nextTimer}, nextTimer + 1;
      }
    }

    method Expire(id: nat)
      requires id in pending
      modifies this
      ensures Next(old(View()), Fire(id), View())
      ensures Inv(old(View())) ==> Inv(View()) && pending == {} && gen in flights
    {
      pending := pending - {id};
      Run();
    }

    method Kicked()
      modifies this
      ensures Next(old(View()), Kick, View())
      ensures Inv(old(View())) ==> Inv(View()) && if stopped then loads == old(loads) else pending == {} && gen in flights
    {
      if !stopped {
        Run();
      }
    }

    method Stop()
      modifies this
      ensures Next(old(View()), Event.Stop, View())
      ensures stopped && (Inv(old(View())) ==> Inv(View()) && pending == {} && gen !in flights)
    {
      stopped, gen := true, gen + 1;
      if timer.Some? {
        pending := pending - {timer.value};
      }
    }
  }

  // ---------------------------------------------------------------- one chain only

  // A pending timer, or a load still allowed to set one.
  ghost function Chains(s: State): nat {
    |s.pending| + if !s.stopped && s.gen in s.flights then 1 else 0
  }

  ghost predicate Inv(s: State) {
    && (forall id :: id in s.pending ==> s.timer == Some(id) && id < s.nextTimer)
    && (forall my :: my in s.flights ==> my <= s.gen)
    && (s.gen in s.flights ==> s.pending == {})
    && (s.stopped ==> s.pending == {} && s.gen !in s.flights)
  }

  lemma InvMeansOneChain(s: State)
    requires Inv(s)
    ensures Chains(s) <= 1
  {
    if s.pending != {} {
      var id :| id in s.pending;
      assert s.pending == {id};
    }
  }

  lemma StepKeepsInv(s: State, e: Event, s': State)
    requires Inv(s) && Next(s, e, s')
    ensures Inv(s')
    ensures s.stopped ==> s'.stopped && s'.loads == s.loads
  {
  }

  ghost predicate IsRun(states: seq<State>, events: seq<Event>) {
    && |states| == |events| + 1
    && states[0] == START
    && forall i :: 0 <= i < |events| ==> Next(states[i], events[i], states[i + 1])
  }

  lemma {:induction false} RunKeepsInv(states: seq<State>, events: seq<Event>, n: nat)
    requires IsRun(states, events) && n < |states|
    ensures Inv(states[n])
  {
    if n > 0 {
      RunKeepsInv(states, events, n - 1);
      StepKeepsInv(states[n - 1], events[n - 1], states[n]);
    }
  }

  // However timers, loads, kicks and the stop fall, at most one chain goes on.
  lemma OneChain(states: seq<State>, events: seq<Event>, n: nat)
    requires IsRun(states, events) && n < |states|
    ensures Chains(states[n]) <= 1
  {
    RunKeepsInv(states, events, n);
    InvMeansOneChain(states[n]);
  }

  // From the stop on no timer is pending and no load starts.
  lemma {:induction false} QuietAfterStop(states: seq<State>, events: seq<Event>, m: nat, n: nat)
    requires IsRun(states, events) && m < n < |states| && events[m].Stop?
    ensures states[n].stopped && states[n].pending == {} && states[n].loads == states[m].loads
  {
    RunKeepsInv(states, events, n);
    RunKeepsInv(states, events, n - 1);
    assert Next(states[n - 1], events[n - 1], states[n]);
    if m < n - 1 {
      QuietAfterStop(states, events, m, n - 1);
      StepKeepsInv(states[n - 1], events[n - 1], states[n]);
    }
  }

  // A chain ends exactly by its own load (no more wanted, page hidden, or failed) or by the stop; a kick never breaks it off.
  lemma ChainEndsByItself(s: State, e: Event, s': State)
    requires Inv(s) && Next(s, e, s') && Chains(s) == 1
    ensures Chains(s') == 0 <==>
            (e.Stop? || (e.Settle? && e.my == s.gen && !(e.again && e.visible)) || (e.Reject? && e.my == s.gen))
  {
    StepKeepsInv(s, e, s');
    InvMeansOneChain(s');
    AtMostOnePending(s);
    AtMostOnePending(s');
  }

  lemma AtMostOnePending(s: State)
    requires Inv(s)
    ensures s.pending == {} || (s.timer.Some? && s.pending == {s.timer.value})
  {
  }

  // With no chain going on only a kick begins one, and does so unless the poller is stopped.
  lemma ChainBeginsByKick(s: State, e: Event, s': State)
    requires Inv(s) && Next(s, e, s') && Chains(s) == 0
    ensures Chains(s') == if e.Kick? && !s.stopped then 1 else 0
  {
    StepKeepsInv(s, e, s');
    AtMostOnePending(s');
    assert s.pending == {};
  }
}
