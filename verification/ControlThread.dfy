// ControlThread: the main loop that pops control events and dispatches them to the flowgraph and
// to the receiver's control plane.
module ControlThread {
  import opened Options

  datatype Event = Channel(id: int, what: int) | Command(id: int, what: int) | Unknown

  // Calls into the flowgraph: apply_action for a channel or a command, acquisition_manager(0).
  datatype Call = ForChannel(id: int, what: int) | ForCommand(id: int, what: int) | Acquire

  const CONTROL_PLANE := 200
  const BOTH_PLANES := 300
  const STOP := 0
  const RESTART := 1
  const STANDBY := 10
  const COLD_START := 11
  const HOT_START := 12
  const WARM_START := 13

  datatype Control = Control(stop: bool, restart: bool, standby: bool, processed: nat, applied: nat,
                             flowgraph: seq<Call>)

  // What one turn of the loop meets: whether the flowgraph runs, whether another thread has set
  // the stop flag, and the event popped, if any came in time.
  datatype Turn = Turn(running: bool, quit: bool, event: Option<Event>)

  // ---- the source's step functions ----------------------------------------------------------------

  // ControlThread::apply_action
  function Apply(c: Control, what: int): Control {
    var c1 := c.(applied := c.applied + 1);
    if what == STOP then c1.(stop := true)
    else if what == RESTART then c1.(stop := true, restart := true)
    else if what == STANDBY then c1.(standby := true)
    else if what == COLD_START || what == HOT_START || what == WARM_START then c1.(standby := false)
    else c1
  }

  function Call1(c: Control, call: Call): Control {
    c.(flowgraph := c.flowgraph + [call])
  }

  // ControlThread::event_dispatcher
  function Dispatch(c: Control, event: Option<Event>): Control {
    match event
    case None => if c.standby then c else Call1(c, Acquire)
    case Some(e) =>
      var c1 := c.(processed := c.processed + 1);
      match e
      case Channel(id, what) => if c1.standby then c1 else Call1(c1, ForChannel(id, what))
      case Command(id, what) =>
        if id == CONTROL_PLANE then Apply(c1, what)
        else
          var c2 := if id == BOTH_PLANES then Apply(c1, what) else c1;
          Call1(c2, ForCommand(id, what))
      case Unknown => c1
  }

  function Meet(c: Control, t: Turn): Control {
    c.(stop := c.stop || t.quit)
  }

  // The loop of ControlThread::run.
  function Loop(c: Control, turns: seq<Turn>): (r: Control)
    decreases |turns|
  {
    if turns == [] || !turns[0].running || Meet(c, turns[0]).stop then c
    else Loop(Dispatch(Meet(c, turns[0]), turns[0].event), turns[1..])
  }

  // The events that get dispatched.
  function Dispatched(c: Control, turns: seq<Turn>): (r: seq<Option<Event>>)
    ensures |r| <= |turns|
    decreases |turns|
  {
    if turns == [] || !turns[0].running || Meet(c, turns[0]).stop then []
    else [turns[0].event] + Dispatched(Dispatch(Meet(c, turns[0]), turns[0].event), turns[1..])
  }

  class ControlThread {
    var stop: bool
    var restart: bool
    var receiverOnStandby: bool
    var processedControlMessages: nat
    var appliedActions: nat
    var flowgraph: seq<Call>  // calls made so far

    function Snapshot(): Control
      reads this
    {
      Control(stop, restart, receiverOnStandby, processedControlMessages, appliedActions, flowgraph)
    }

    constructor ()
      ensures Snapshot() == Control(false, false, false, 0, 0, [])
    {
      stop, restart, receiverOnStandby := false, false, false;
      processedControlMessages, appliedActions, flowgraph := 0, 0, [];
    }

    method ApplyAction(what: int)
      modifies this
      ensures Snapshot() == Apply(old(Snapshot()), what)
    {
      appliedActions := appliedActions + 1;
      if what == STOP {
        stop := true;
      } else if what == RESTART {
        stop := true;
        restart := true;
      } else if what == STANDBY {
        receiverOnStandby := true;
      } else if what == COLD_START {
        receiverOnStandby := false;
      } else if what == HOT_START {
        receiverOnStandby := false;
      } else if what == WARM_START {
        receiverOnStandby := false;
      }
    }

    method EventDispatcher(event: Option<Event>)
      modifies this
      ensures Snapshot() == Dispatch(old(Snapshot()), event)
    {
      hide Apply;
      match event
      case None =>
        if !receiverOnStandby {
          flowgraph := flowgraph + [Acquire];
        }
      case Some(e) =>
        processedControlMessages := processedControlMessages + 1;
        match e
        case Channel(id, what) =>
          if !receiverOnStandby {
            flowgraph := flowgraph + [ForChannel(id, what)];
          }
        case Command(id, what) =>
          if id == CONTROL_PLANE {
            ApplyAction(what);
          } else {
            if id == BOTH_PLANES {
              ApplyAction(what);
            }
            flowgraph := flowgraph + [ForCommand(id, what)];
          }
        case Unknown =>
    }

    // `connected` says whether the flowgraph could be connected and started.
    method Run(connected: bool, turns: seq<Turn>) returns (code: int)
      modifies this
      ensures !connected ==> code == 0 && Snapshot() == old(Snapshot())
      ensures connected ==>
                var r := Loop(old(Snapshot()), turns);
                Snapshot() == r.(stop := true) && code == if r.restart then 42 else 0
    {
      if !connected { return 0; }
      ghost var whole := Loop(Snapshot(), turns);
      var i := 0;
      while i < |turns| && turns[i].running && !(stop || turns[i].quit)
        invariant 0 <= i <= |turns|
        invariant whole == Loop(Snapshot(), turns[i..])
        decreases |turns| - i
      {
        ghost var rest := turns[i..];
        assert rest[0] == turns[i] && rest[1..] == turns[i + 1..];
        assert Meet(Snapshot(), turns[i]) == Snapshot();
        EventDispatcher(turns[i].event);
        i := i + 1;
      }
      assert i < |turns| ==> turns[i..][0] == turns[i];
      stop := true;
      return if restart then 42 else 0;
    }
  }

  // ---- what a run does, told from the events alone ----------------------------------------------------

  // Commands 200 and 300 are for the control plane; 300 is for the flowgraph too.
  predicate ForControlPlane(e: Option<Event>) {
    e.Some? && e.value.Command? && (e.value.id == 200 || e.value.id == 300)
  }

  // Actions 0, stop, and 1, restart.
  predicate Ends(e: Option<Event>) {
    ForControlPlane(e) && (e.value.what == 0 || e.value.what == 1)
  }

  predicate Restarts(e: Option<Event>) {
    ForControlPlane(e) && e.value.what == 1
  }

  // Standby after the events: decided by the last command that switches it, action 10 to go there and
  // 11 to 13, the cold, hot and warm starts, to leave.
  function OnStandby(events: seq<Option<Event>>, at: bool): bool {
    if events == [] then at
    else
      var e := events[|events| - 1];
      if ForControlPlane(e) && e.value.what == 10 then true
      else if ForControlPlane(e) && 11 <= e.value.what <= 13 then false
      else OnStandby(events[..|events| - 1], at)
  }

  // The calls one event causes.
  function CallsOf(e: Option<Event>, standby: bool): (r: seq<Call>) {
    match e
    case None => if standby then [] else [Acquire]
    case Some(Channel(id, what)) => if standby then [] else [ForChannel(id, what)]
    case Some(Command(id, what)) => if id == 200 then [] else [ForCommand(id, what)]
    case Some(Unknown) => []
  }

  // The calls the events cause, in order.
  function Calls(events: seq<Option<Event>>, at: bool): (r: seq<Call>) {
    if events == [] then []
    else
      var n := |events| - 1;
      Calls(events[..n], at) + CallsOf(events[n], OnStandby(events[..n], at))
  }

  function Commands(events: seq<Option<Event>>): nat {
    if events == [] then 0
    else
      var n := |events| - 1;
      Commands(events[..n]) + (if ForControlPlane(events[n]) then 1 else 0)
  }

  function Messages(events: seq<Option<Event>>): nat {
    if events == [] then 0
    else
      var n := |events| - 1;
      Messages(events[..n]) + (if events[n].Some? then 1 else 0)
  }

  lemma {:induction false} StandbyPrefixed(e: Option<Event>, rest: seq<Option<Event>>, at: bool)
    ensures OnStandby([e] + rest, at) == OnStandby(rest, OnStandby([e], at))
  {
    if rest == [] {
      assert [e] + rest == [e];
    } else {
      var n := |rest| - 1;
      assert ([e] + rest)[..n + 1] == [e] + rest[..n];
      StandbyPrefixed(e, rest[..n], at);
    }
  }

  lemma {:induction false} CallsPrefixed(e: Option<Event>, rest: seq<Option<Event>>, at: bool)
    ensures Calls([e] + rest, at) == CallsOf(e, at) + Calls(rest, OnStandby([e], at))
  {
    hide CallsOf;
    if rest == [] {
      assert [e] + rest == [e] && [e][..0] == [];
    } else {
      hide OnStandby;
      var n := |rest| - 1;
      assert ([e] + rest)[..n + 1] == [e] + rest[..n];
      StandbyPrefixed(e, rest[..n], at);
      CallsPrefixed(e, rest[..n], at);
    }
  }

  lemma {:induction false} CommandsPrefixed(e: Option<Event>, rest: seq<Option<Event>>)
    ensures Commands([e] + rest) == (if ForControlPlane(e) then 1 else 0) + Commands(rest)
  {
    if rest == [] {
      assert [e] + rest == [e] && [e][..0] == [];
    } else {
      var n := |rest| - 1;
      assert ([e] + rest)[..n + 1] == [e] + rest[..n];
      CommandsPrefixed(e, rest[..n]);
    }
  }

  lemma {:induction false} MessagesPrefixed(e: Option<Event>, rest: seq<Option<Event>>)
    ensures Messages([e] + rest) == (if e.Some? then 1 else 0) + Messages(rest)
  {
    if rest == [] {
      assert [e] + rest == [e] && [e][..0] == [];
    } else {
      var n := |rest| - 1;
      assert ([e] + rest)[..n + 1] == [e] + rest[..n];
      MessagesPrefixed(e, rest[..n]);
    }
  }

  lemma {:induction false} DispatchOne(c: Control, e: Option<Event>)
    ensures var r := Dispatch(c, e);
            && r.standby == OnStandby([e], c.standby)
            && r.flowgraph == c.flowgraph + CallsOf(e, c.standby)
            && r.stop == (c.stop || Ends(e)) && r.restart == (c.restart || Restarts(e))
            && r.applied == c.applied + (if ForControlPlane(e) then 1 else 0)
            && r.processed == c.processed + (if e.Some? then 1 else 0)
  {
    assert [e][..0] == [];
    assert c.flowgraph + [] == c.flowgraph;
  }

  // The state r accounts for the events d dispatched from c on.
  ghost predicate Accounted(c: Control, d: seq<Option<Event>>, r: Control) {
    && r.flowgraph == c.flowgraph + Calls(d, c.standby)
    && r.standby == OnStandby(d, c.standby)
    && r.applied == c.applied + Commands(d) && r.processed == c.processed + Messages(d)
  }

  lemma {:induction false} AccountedStep(c: Control, e: Option<Event>, next: Control, d: seq<Option<Event>>, r: Control)
    requires Accounted(next, d, r)
    requires next.standby == OnStandby([e], c.standby) && next.flowgraph == c.flowgraph + CallsOf(e, c.standby)
    requires next.applied == c.applied + (if ForControlPlane(e) then 1 else 0)
    requires next.processed == c.processed + (if e.Some? then 1 else 0)
    ensures Accounted(c, [e] + d, r)
  {
    hide CallsOf, Calls, OnStandby, Commands, Messages, ForControlPlane;
    MessagesPrefixed(e, d);
    StandbyPrefixed(e, d, c.standby);
    CallsPrefixed(e, d, c.standby);
    CommandsPrefixed(e, d);
  }

  lemma {:induction false} LoopAccounted(c: Control, turns: seq<Turn>)
    ensures Accounted(c, Dispatched(c, turns), Loop(c, turns))
    decreases |turns|
  {
    hide Accounted, Dispatch, CallsOf, ForControlPlane, OnStandby;
    if turns == [] || !turns[0].running || Meet(c, turns[0]).stop {
      NothingAccounted(c);
    } else {
      var m := Meet(c, turns[0]);
      var next := Dispatch(m, turns[0].event);
      DispatchOne(m, turns[0].event);
      LoopAccounted(next, turns[1..]);
      AccountedStep(c, turns[0].event, next, Dispatched(next, turns[1..]), Loop(next, turns[1..]));
    }
  }

  lemma {:induction false} NothingAccounted(c: Control)
    ensures Accounted(c, [], c)
  {
    assert c.flowgraph + [] == c.flowgraph;
  }

  function Events(turns: seq<Turn>): (r: seq<Option<Event>>)
    ensures |r| == |turns|
  {
    seq(|turns|, k requires 0 <= k < |turns| => turns[k].event)
  }

  // The events dispatched are those of the first turns: up to the first one at which the flowgraph is
  // not running, another thread has set the stop flag, or the event before was STOP or RESTART.
  lemma {:induction false} DispatchedExactly(c: Control, turns: seq<Turn>)
    requires !c.stop
    ensures var d := Dispatched(c, turns);
            && d == Events(turns[..|d|])
            && (forall k :: 0 <= k < |d| ==> turns[k].running && !turns[k].quit)
            && (forall k :: 0 <= k < |d| - 1 ==> !Ends(d[k]))
            && (|d| < |turns| ==>
                  !turns[|d|].running || turns[|d|].quit || (d != [] && Ends(d[|d| - 1])))
    decreases |turns|
  {
    hide Ends, Dispatch, CallsOf, OnStandby;
    if turns != [] && turns[0].running && !turns[0].quit {
      var e, m := turns[0].event, Meet(c, turns[0]);
      var next := Dispatch(m, e);
      DispatchOne(m, e);
      var d := Dispatched(next, turns[1..]);
      assert Dispatched(c, turns) == [e] + d;
      if Ends(e) {
        assert d == [];
      } else {
        DispatchedExactly(next, turns[1..]);
      }
      assert [e] + d == Events(turns[..1 + |d|]) by {
        assert turns[1..][..|d|] == turns[1..1 + |d|];
      }
    }
  }

  // Over every sequence of turns: the flowgraph receives, in order, every channel event dispatched
  // outside standby, every command except those for the control plane alone, and an acquisition
  // request for every time-out outside standby.
  lemma {:induction false} FlowgraphCalls(c: Control, turns: seq<Turn>)
    ensures var d := Dispatched(c, turns);
            var r := Loop(c, turns);
            && r.flowgraph == c.flowgraph + Calls(d, c.standby)
            && r.standby == OnStandby(d, c.standby)
            && r.applied == c.applied + Commands(d) && r.processed == c.processed + Messages(d)
  {
    LoopAccounted(c, turns);
  }

  // Nothing is dispatched after STOP or RESTART, and a run that started without a pending restart
  // is one to restart exactly when the last event dispatched was RESTART.
  lemma {:induction false} EndOfRun(c: Control, turns: seq<Turn>)
    requires !c.stop && !c.restart
    ensures var d := Dispatched(c, turns);
            && (forall k :: 0 <= k < |d| - 1 ==> !Ends(d[k]))
            && (Loop(c, turns).restart <==> d != [] && Restarts(d[|d| - 1]))
    decreases |turns|
  {
    if turns != [] && turns[0].running && !turns[0].quit {
      var e := turns[0].event;
      var next := Dispatch(Meet(c, turns[0]), e);
      DispatchOne(Meet(c, turns[0]), e);
      if !Ends(e) {
        EndOfRun(next, turns[1..]);
      }
    }
  }

  // A whole run of a fresh receiver.
  method RunFresh(turns: seq<Turn>) returns (code: int, calls: seq<Call>)
    ensures var d := Dispatched(Control(false, false, false, 0, 0, []), turns);
            && calls == Calls(d, false)
            && (code == 42 <==> d != [] && Restarts(d[|d| - 1]))
            && (code == 42 || code == 0)
  {
    var thread := new ControlThread();
    FlowgraphCalls(thread.Snapshot(), turns);
    EndOfRun(thread.Snapshot(), turns);
    code := thread.Run(true, turns);
    calls := thread.flowgraph;
  }
}
