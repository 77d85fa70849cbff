// Concurrent_Queue: a queue under a mutex with one condition variable. Each critical section is
// one atomic step; notify_one is a step of its own, because it runs after the unlock.
module ConcurrentQueue {
  import opened Options

  // What a thread is doing: nothing, about to notify after a push, asleep in wait or wait_for, or
  // woken and about to take the mutex again.
  datatype Phase = Idle | Notifying | Sleeping(timed: bool) | Woken(timed: bool)

  datatype State<D> = State(queue: seq<D>, threads: seq<Phase>)

  datatype Action<D> =
    | Push(t: nat, data: D)
    | Notify(t: nat, woken: Option<nat>)
    | TryPop(t: nat)
    | Wait(t: nat, timed: bool)   // first section of wait_and_pop or timed_wait_and_pop
    | Stir(t: nat)                // time-out or spurious wake-up
    | Resume(t: nat)              // a woken consumer takes the mutex

  predicate SomeoneSleeps(threads: seq<Phase>) {
    exists w :: 0 <= w < |threads| && threads[w].Sleeping?
  }

  // notify_one wakes one sleeper if there is any.
  predicate Enabled<D>(s: State<D>, a: Action<D>) {
    && a.t < |s.threads|
    && match a
       case Push(t, _) => s.threads[t] == Idle
       case Notify(t, woken) =>
         && s.threads[t] == Notifying
         && (match woken
             case None => !SomeoneSleeps(s.threads)
             case Some(w) => w < |s.threads| && s.threads[w].Sleeping?)
       case TryPop(t) => s.threads[t] == Idle
       case Wait(t, _) => s.threads[t] == Idle
       case Stir(t) => s.threads[t].Sleeping?
       case Resume(t) => s.threads[t].Woken?
  }

  function Take<D>(s: State<D>): State<D>
    requires s.queue != []
  {
    s.(queue := s.queue[1..])
  }

  function Move<D>(s: State<D>, t: nat, phase: Phase): (r: State<D>)
    requires t < |s.threads|
  {
    s.(threads := s.threads[t := phase])
  }

  function Step<D>(s: State<D>, a: Action<D>): State<D>
    requires Enabled(s, a)
  {
    match a
    case Push(t, data) => Move(s.(queue := s.queue + [data]), t, Notifying)
    case Notify(t, woken) =>
      var s1 := Move(s, t, Idle);
      if woken.Some? then Move(s1, woken.value, Woken(s.threads[woken.value].timed)) else s1
    case TryPop(t) => if s.queue == [] then s else Take(s)
    case Wait(t, timed) => if s.queue == [] then Move(s, t, Sleeping(timed)) else Take(s)
    case Stir(t) => Move(s, t, Woken(s.threads[t].timed))
    case Resume(t) =>
      if s.queue != [] then Move(Take(s), t, Idle)
      else if s.threads[t].timed then Move(s, t, Idle)
      else Move(s, t, Sleeping(false))
  }

  // What a call gives back to its caller in a step: the first value, if there is one.
  function Given<D>(s: State<D>, a: Action<D>): Option<D> {
    if (a.TryPop? || a.Wait? || a.Resume?) && s.queue != [] then Some(s.queue[0]) else None
  }

  // ---- the class: one method per critical section ------------------------------------------------

  class ConcurrentQueue<D> {
    var theQueue: seq<D>
    var threads: seq<Phase>

    ghost function Snapshot(): State<D>
      reads this
    {
      State(theQueue, threads)
    }

    constructor (consumers: nat)
      ensures Snapshot() == State([], seq(consumers, i => Idle))
    {
      theQueue, threads := [], seq(consumers, i => Idle);
    }

    // push, up to the unlock
    method PushData(t: nat, data: D)
      requires Enabled(Snapshot(), Push(t, data))
      modifies this
      ensures Snapshot() == Step(old(Snapshot()), Push(t, data))
    {
      theQueue := theQueue + [data];
      threads := threads[t := Notifying];
    }

    // notify_one
    method NotifyOne(t: nat) returns (woken: Option<nat>)
      requires t < |threads| && threads[t] == Notifying
      modifies this
      ensures Enabled(old(Snapshot()), Notify(t, woken)) && Snapshot() == Step(old(Snapshot()), Notify(t, woken))
    {
      ghost var before := threads;
      threads := threads[t := Idle];
      assert SomeoneSleeps(before) ==> SomeoneSleeps(threads) by {
        if w :| 0 <= w < |before| && before[w].Sleeping? {
          assert threads[w].Sleeping?;
        }
      }
      assert SomeoneSleeps(threads) ==> SomeoneSleeps(before) by {
        if SomeoneSleeps(threads) {
          MovedSleepers(before, t, Idle);
        }
      }
      if SomeoneSleeps(threads) {
        var w :| 0 <= w < |threads| && threads[w].Sleeping?;
        threads := threads[w := Woken(threads[w].timed)];
        return Some(w);
      }
      return None;
    }

    method PopFront() returns (data: D)
      requires theQueue != []
      modifies this`theQueue
      ensures Snapshot() == Take(old(Snapshot())) && data == old(theQueue[0])
    {
      data := theQueue[0];
      theQueue := theQueue[1..];
    }

    method TryPopData(t: nat) returns (data: Option<D>)
      requires Enabled(Snapshot(), TryPop(t))
      modifies this
      ensures Snapshot() == Step(old(Snapshot()), TryPop(t)) && data == Given(old(Snapshot()), TryPop(t))
      ensures data == if old(theQueue) == [] then None else Some(old(theQueue[0]))
    {
      if theQueue == [] { return None; }
      var d := PopFront();
      return Some(d);
    }

    // wait_and_pop and timed_wait_and_pop, up to the wait
    method BeginWait(t: nat, timed: bool) returns (data: Option<D>)
      requires Enabled(Snapshot(), Wait(t, timed))
      modifies this
      ensures Snapshot() == Step(old(Snapshot()), Wait(t, timed)) && data == Given(old(Snapshot()), Wait(t, timed))
      ensures data == if old(theQueue) == [] then None else Some(old(theQueue[0]))
    {
      if theQueue == [] {
        threads := threads[t := Sleeping(timed)];
        return None;
      }
      var d := PopFront();
      return Some(d);
    }

    // ... and after it. The call returns unless a blocking consumer finds the queue empty again;
    // a timed call returns false exactly when the queue is empty at that moment.
    method EndWait(t: nat) returns (returned: bool, data: Option<D>)
      requires Enabled(Snapshot(), Resume(t))
      modifies this
      ensures Snapshot() == Step(old(Snapshot()), Resume(t)) && data == Given(old(Snapshot()), Resume(t))
      ensures data == if old(theQueue) == [] then None else Some(old(theQueue[0]))
      ensures returned <==> data.Some? || old(threads[t].timed)
    {
      if theQueue == [] {
        if threads[t].timed {
          threads := threads[t := Idle];
          return true, None;
        }
        threads := threads[t := Sleeping(false)];
        return false, None;
      }
      var d := PopFront();
      threads := threads[t := Idle];
      return true, Some(d);
    }
  }

  // ---- what every step keeps -------------------------------------------------------------------------

  // Threads that still owe a notification, and threads that were woken.
  function Pending(threads: seq<Phase>): (n: nat) {
    if threads == [] then 0 else Pending(threads[1..]) + (if threads[0] == Notifying then 1 else 0)
  }

  function Awake(threads: seq<Phase>): (n: nat) {
    if threads == [] then 0 else Awake(threads[1..]) + (if threads[0].Woken? then 1 else 0)
  }

  lemma {:induction false} Moved(threads: seq<Phase>, t: nat, phase: Phase)
    requires t < |threads|
    ensures Pending(threads[t := phase])
            == Pending(threads) - (if threads[t] == Notifying then 1 else 0) + (if phase == Notifying then 1 else 0)
    ensures Awake(threads[t := phase])
            == Awake(threads) - (if threads[t].Woken? then 1 else 0) + (if phase.Woken? then 1 else 0)
  {
    if t > 0 {
      Moved(threads[1..], t - 1, phase);
      assert threads[t := phase][1..] == threads[1..][t - 1 := phase];
    }
  }

  lemma {:induction false} CountedSomewhere(threads: seq<Phase>)
    ensures Pending(threads) > 0 ==> exists t :: 0 <= t < |threads| && threads[t] == Notifying
    ensures Awake(threads) > 0 ==> exists t :: 0 <= t < |threads| && threads[t].Woken?
  {
    if threads != [] {
      CountedSomewhere(threads[1..]);
      if Pending(threads[1..]) > 0 {
        var t :| 0 <= t < |threads[1..]| && threads[1..][t] == Notifying;
        assert threads[t + 1] == Notifying;
      }
      if Awake(threads[1..]) > 0 {
        var t :| 0 <= t < |threads[1..]| && threads[1..][t].Woken?;
        assert threads[t + 1].Woken?;
      }
    }
  }

  // The values that go in with an action.
  function Brought<D>(a: Action<D>): seq<D> {
    if a.Push? then [a.data] else []
  }

  // The values that come out of a step.
  function Obtained<D>(s: State<D>, a: Action<D>): seq<D> {
    match Given(s, a)
    case None => []
    case Some(d) => [d]
  }

  // While a consumer sleeps, every queued value has a notification on its way or a woken consumer.
  ghost predicate Attended<D>(s: State<D>) {
    SomeoneSleeps(s.threads) ==> |s.queue| <= Pending(s.threads) + Awake(s.threads)
  }

  // What is queued before a step and what goes in is what comes out and what is queued after.
  lemma {:induction false} StepConserves<D>(s: State<D>, a: Action<D>)
    requires Enabled(s, a)
    ensures s.queue + Brought(a) == Obtained(s, a) + Step(s, a).queue
  {
    if s.queue != [] {
      assert s.queue == [s.queue[0]] + s.queue[1..];
    }
  }

  lemma {:induction false} MovedSleepers(threads: seq<Phase>, t: nat, phase: Phase)
    requires t < |threads| && !phase.Sleeping? && SomeoneSleeps(threads[t := phase])
    ensures SomeoneSleeps(threads)
  {
    var w :| 0 <= w < |threads| && threads[t := phase][w].Sleeping?;
    assert threads[w].Sleeping?;
  }

  lemma {:induction false} StepAttends<D>(s: State<D>, a: Action<D>)
    requires Attended(s) && Enabled(s, a)
    ensures Attended(Step(s, a))
  {
    var r := Step(s, a);
    if SomeoneSleeps(r.threads) {
      match a
      case Push(t, _) =>
        MovedSleepers(s.threads, t, Notifying);
        Moved(s.threads, t, Notifying);
      case Notify(t, woken) =>
        var mid := s.threads[t := Idle];
        Moved(s.threads, t, Idle);
        if woken.Some? {
          MovedSleepers(mid, woken.value, r.threads[woken.value]);
          Moved(mid, woken.value, r.threads[woken.value]);
        }
        MovedSleepers(s.threads, t, Idle);
      case TryPop(t) =>
      case Wait(t, timed) =>
      case Stir(t) =>
        MovedSleepers(s.threads, t, r.threads[t]);
        Moved(s.threads, t, r.threads[t]);
      case Resume(t) =>
        if r.queue != [] || s.queue != [] {
          MovedSleepers(s.threads, t, Idle);
          Moved(s.threads, t, Idle);
        }
    }
  }

  // ---- every interleaving -----------------------------------------------------------------------------

  ghost predicate Schedule<D>(s: State<D>, actions: seq<Action<D>>)
    decreases |actions|
  {
    actions == [] || (Enabled(s, actions[0]) && Schedule(Step(s, actions[0]), actions[1..]))
  }

  ghost function After<D>(s: State<D>, actions: seq<Action<D>>): State<D>
    requires Schedule(s, actions)
    decreases |actions|
  {
    if actions == [] then s else After(Step(s, actions[0]), actions[1..])
  }

  function Start<D>(threads: nat): State<D> {
    State([], seq(threads, i => Idle))
  }

  // All values pushed by the actions, and all values the calls give back, in order.
  ghost function Pushed<D>(actions: seq<Action<D>>): seq<D> {
    if actions == [] then [] else Brought(actions[0]) + Pushed(actions[1..])
  }

  ghost function Returned<D>(s: State<D>, actions: seq<Action<D>>): seq<D>
    requires Schedule(s, actions)
    decreases |actions|
  {
    if actions == [] then [] else Obtained(s, actions[0]) + Returned(Step(s, actions[0]), actions[1..])
  }

  lemma {:induction false} RunConserves<D>(s: State<D>, actions: seq<Action<D>>)
    requires Schedule(s, actions)
    ensures s.queue + Pushed(actions) == Returned(s, actions) + After(s, actions).queue
    decreases |actions|
  {
    if actions != [] {
      hide Step, Enabled, Brought, Obtained;
      var a, rest := actions[0], actions[1..];
      var next := Step(s, a);
      StepConserves(s, a);
      RunConserves(next, rest);
      Chained(s.queue, Brought(a), Pushed(rest), Obtained(s, a), next.queue, Returned(next, rest),
              After(next, rest).queue);
    }
  }

  lemma {:induction false} Chained<D>(q: seq<D>, b: seq<D>, bs: seq<D>, o: seq<D>, n: seq<D>, os: seq<D>, r: seq<D>)
    requires q + b == o + n && n + bs == os + r
    ensures q + (b + bs) == (o + os) + r
  {
    assert q + (b + bs) == (q + b) + bs == o + (n + bs);
  }

  lemma {:induction false} RunKeeps<D>(s: State<D>, actions: seq<Action<D>>)
    requires Attended(s) && Schedule(s, actions)
    ensures Attended(After(s, actions))
    decreases |actions|
  {
    if actions != [] {
      StepAttends(s, actions[0]);
      RunKeeps(Step(s, actions[0]), actions[1..]);
    }
  }

  // In every interleaving the values pushed are the values that the calls gave back, in order,
  // followed by what is queued; and no wake-up is lost: once no notification is due and no woken
  // consumer is left, a consumer sleeps only on an empty queue.
  lemma {:induction false} QueueSafety<D>(threads: nat, actions: seq<Action<D>>)
    requires Schedule(Start<D>(threads), actions)
    ensures var s := After(Start<D>(threads), actions);
            && Pushed(actions) == Returned(Start<D>(threads), actions) + s.queue
            && (SomeoneSleeps(s.threads) ==> |s.queue| <= Pending(s.threads) + Awake(s.threads))
            && (Pending(s.threads) == 0 && Awake(s.threads) == 0 && SomeoneSleeps(s.threads) ==> s.queue == [])
  {
    RunConserves(Start<D>(threads), actions);
    assert [] + Pushed(actions) == Pushed(actions);
    RunKeeps(Start<D>(threads), actions);
  }

  // A call that pops gives back nothing exactly when everything pushed so far was given back
  // before; otherwise it gives back the first value that was not.
  lemma {:induction false} PopExactly<D>(threads: nat, actions: seq<Action<D>>, a: Action<D>)
    requires Schedule(Start<D>(threads), actions) && Enabled(After(Start<D>(threads), actions), a)
    requires a.TryPop? || a.Wait? || a.Resume?
    ensures var before := Returned(Start<D>(threads), actions);
            && |before| <= |Pushed(actions)|
            && Given(After(Start<D>(threads), actions), a)
               == if |before| == |Pushed(actions)| then None else Some(Pushed(actions)[|before|])
  {
    QueueSafety(threads, actions);
  }

  // Steps that the queue makes on its own, without a new call, time-out or spurious wake-up.
  predicate Internal<D>(a: Action<D>) {
    a.Notify? || a.Resume?
  }

  function Work(threads: seq<Phase>): nat {
    2 * Pending(threads) + Awake(threads)
  }

  lemma {:induction false} InternalStepWorks<D>(s: State<D>, a: Action<D>)
    requires Enabled(s, a) && Internal(a)
    ensures Work(Step(s, a).threads) == Work(s.threads) - 1 || Work(Step(s, a).threads) == Work(s.threads) - 2
  {
    var r := Step(s, a);
    match a
    case Notify(t, woken) =>
      Moved(s.threads, t, Idle);
      if woken.Some? {
        Moved(s.threads[t := Idle], woken.value, r.threads[woken.value]);
      }
    case Resume(t) =>
      Moved(s.threads, t, r.threads[t]);
  }

  lemma {:induction false} InternalRunsEnd<D>(s: State<D>, actions: seq<Action<D>>)
    requires Schedule(s, actions) && forall k :: 0 <= k < |actions| ==> Internal(actions[k])
    ensures |actions| + Work(After(s, actions).threads) <= Work(s.threads)
    decreases |actions|
  {
    if actions != [] {
      InternalStepWorks(s, actions[0]);
      InternalRunsEnd(Step(s, actions[0]), actions[1..]);
    }
  }

  lemma {:induction false} StuckIsIdle<D>(s: State<D>)
    requires forall a: Action<D> :: Internal(a) ==> !Enabled(s, a)
    ensures Pending(s.threads) == 0 && Awake(s.threads) == 0
  {
    CountedSomewhere(s.threads);
    if t :| 0 <= t < |s.threads| && s.threads[t] == Notifying {
      if SomeoneSleeps(s.threads) {
        var w :| 0 <= w < |s.threads| && s.threads[w].Sleeping?;
        assert Enabled(s, Notify(t, Some(w)));
      } else {
        assert Enabled(s, Notify(t, None));
      }
    }
    if t :| 0 <= t < |s.threads| && s.threads[t].Woken? {
      assert Enabled(s, Resume(t));
    }
  }

  // From every reachable state the queue's own steps run out, after at most two for each due
  // notification and one for each woken consumer; then a consumer that still sleeps has nothing
  // to wait for.
  lemma {:induction false} NoLostWakeUp<D>(threads: nat, history: seq<Action<D>>, own: seq<Action<D>>)
    requires Schedule(Start<D>(threads), history)
    requires Schedule(After(Start<D>(threads), history), own) && forall k :: 0 <= k < |own| ==> Internal(own[k])
    ensures var s := After(Start<D>(threads), history);
            var r := After(s, own);
            && |own| <= 2 * Pending(s.threads) + Awake(s.threads)
            && ((forall a: Action<D> :: Internal(a) ==> !Enabled(r, a)) && SomeoneSleeps(r.threads) ==> r.queue == [])
  {
    var s := After(Start<D>(threads), history);
    RunKeeps(Start<D>(threads), history);
    RunKeeps(s, own);
    InternalRunsEnd(s, own);
    if forall a: Action<D> :: Internal(a) ==> !Enabled(After(s, own), a) {
      StuckIsIdle(After(s, own));
    }
  }
}
