/** p7r/p7r_uthread.c: the user-thread scheduler of one carrier, with swarm scheduling off. */
module Scheduler {
  import opened Lists

  type Request = nat

  datatype Status = Prelaunch | Running | Limbo | Dying | Blocking

  /** `struct p7r_uthread`.  Creation leaves `status` as the memory had it. */
  class Uthread {
    var status: Status
    var entrance: Request

    constructor (entrance: Request, leftover: Status)
      ensures status == leftover && this.entrance == entrance
    {
      this.entrance, status := entrance, leftover;
    }

    /** Stands for the uthread that a step could have made and did not. */
    ghost constructor Unused()
    {
      entrance, status := 0, Prelaunch;
    }
  }

  /** Whose stack the carrier executes on: its own, a uthread's in user code, or a uthread's in
      the loop of `p7r_blocking_point`. */
  datatype Place = OnCarrier | OnUthread(u: Uthread) | Parked(u: Uthread)

  /** The queues of the scheduler, by value. */
  datatype Queues = Queues(run: seq<Uthread>, blocked: seq<Uthread>, dying: seq<Uthread>,
                           requests: seq<Request>, running: Uthread?, place: Place)

  /** What a bus refresh finds: whether epoll_wait succeeded, the uthreads whose delegations
      are reported, and the requests in the message boxes. */
  datatype Input = Input(ok: bool, events: seq<Uthread>, arrivals: seq<Request>)

  // ---- What each function of the scheduler does to the queues -------------------------------

  /** `p7r_uthread_reenable`. */
  function Reenabled(q: Queues, u: Uthread): Queues {
    if u in q.blocked then q.(run := q.run + [u], blocked := Dropped(q.blocked, u)) else q
  }

  function ReenabledAll(q: Queues, events: seq<Uthread>): Queues
    decreases |events|
  {
    if events == [] then q else ReenabledAll(Reenabled(q, events[0]), events[1..])
  }

  /** `sched_bus_refresh`. */
  function Refreshed(q: Queues, input: Input): Queues {
    if !input.ok then q
    else
      var w := ReenabledAll(q, input.events);
      w.(requests := w.requests + input.arrivals, dying := [])
  }

  /** The first step of `sched_resched_target`: the last target goes to the end. */
  function Rotated(q: Queues): Queues {
    if q.running == null then q else q.(run := Dropped<Uthread>(q.run, q.running) + [q.running])
  }

  /** The rest of it; `spare` is the uthread made if the run queue is empty. */
  function Picked(q: Queues, spare: Uthread): Queues {
    if q.run != [] then q.(running := q.run[0])
    else if q.requests != [] then q.(run := [spare], requests := q.requests[1..], running := spare)
    else q
  }

  /** `sched_resched_target`, then the switch to the target if there is one. */
  function Dispatched(q: Queues, spare: Uthread): Queues {
    var w := Picked(Rotated(q), spare);
    if w.running == null then w else w.(place := OnUthread(w.running))
  }

  datatype Step =
    | CarrierTurn(input: Input, spare: Uthread)   // one round of p7r_carrier_lifespan
    | Yield(input: Input, spare: Uthread)
    | Block                                       // the first half of p7r_blocking_point
    | Wait(input: Input, spare: Uthread)          // one round of its loop
    | Finish(input: Input, spare: Uthread)        // the user function returns
    | Create(spare: Uthread)                      // a local p7r_uthread_create_

  predicate Enabled(q: Queues, s: Step) {
    match s
    case CarrierTurn(_, _) => q.place.OnCarrier?
    case Wait(_, _) => q.place.Parked?
    case _ => q.place.OnUthread? && q.running == q.place.u
  }

  /** A new uthread takes the first request. */
  function Hired(q: Queues, spare: Uthread): Queues {
    if q.requests == [] then q else q.(run := q.run + [spare], requests := q.requests[1..])
  }

  function Apply(q: Queues, s: Step): Queues
    requires Enabled(q, s)
  {
    match s
    case CarrierTurn(input, spare) => Dispatched(Hired(Refreshed(q, input), spare), spare)
    case Yield(input, spare) => Dispatched(Refreshed(q, input), spare)
    case Block =>
      var u := q.place.u;
      q.(run := Dropped(q.run, u), blocked := q.blocked + [u], running := null, place := Parked(u))
    case Wait(input, spare) => Dispatched(Refreshed(q, input), spare)
    case Finish(input, spare) =>
      if q.requests != [] then
        Dispatched(Refreshed(q.(requests := q.requests[1..]), input), spare)
      else
        var u := q.place.u;
        q.(run := Dropped(q.run, u), dying := q.dying + [u], running := null, place := OnCarrier)
    case Create(spare) => q.(run := q.run + [spare])
  }

  // ---- Every uthread on one queue -----------------------------------------------------------

  /** The uthreads that have a stack. */
  ghost function Live(q: Queues): set<Uthread> { Elements(q.run) + Elements(q.blocked) + Elements(q.dying) }

  /** No uthread is queued twice, and the one running heads the run queue. */
  ghost predicate Queued(q: Queues) {
    && NoTwice(q.run) && NoTwice(q.blocked) && NoTwice(q.dying)
    && Elements(q.run) !! Elements(q.blocked) && Elements(q.run) !! Elements(q.dying)
    && Elements(q.blocked) !! Elements(q.dying)
    && (q.running != null ==> q.run != [] && q.run[0] == q.running)
  }

  /** Whoever's stack the carrier executes on is queued where it should be. */
  ghost predicate Placed(q: Queues) {
    match q.place
    case OnCarrier => true
    case OnUthread(u) => q.running == u
    case Parked(u) => q.running == null && (u in Elements(q.run) || u in Elements(q.blocked))
  }

  ghost predicate WellFormed(q: Queues) { Queued(q) && Placed(q) }

  lemma ReenabledQueued(q: Queues, u: Uthread)
    requires Queued(q)
    ensures Queued(Reenabled(q, u)) && Live(Reenabled(q, u)) == Live(q) && q.run <= Reenabled(q, u).run
  {
    if u in q.blocked {
      Removed(q.blocked, u);
      Appended(q.run, u);
    }
  }

  lemma {:induction false} ReenabledAllQueued(q: Queues, events: seq<Uthread>)
    requires Queued(q)
    ensures
      var w := ReenabledAll(q, events);
      && Queued(w) && Live(w) == Live(q) && q.run <= w.run
      && Elements(q.run) + Elements(q.blocked) == Elements(w.run) + Elements(w.blocked)
      && w.dying == q.dying && w.requests == q.requests && w.running == q.running && w.place == q.place
    decreases |events|
  {
    if events == [] {
    } else {
      ReenabledQueued(q, events[0]);
      ReenabledAllQueued(Reenabled(q, events[0]), events[1..]);
    }
  }

  lemma RefreshedQueued(q: Queues, input: Input)
    requires Queued(q)
    ensures
      var w := Refreshed(q, input);
      && Queued(w) && q.run <= w.run && Elements(q.run) + Elements(q.blocked) == Elements(w.run) + Elements(w.blocked)
      && Elements(w.dying) == (if input.ok then {} else Elements(q.dying))
      && w.running == q.running && w.place == q.place
  {
    ReenabledAllQueued(q, input.events);
  }

  // ---- What a refresh does, by its effect ---------------------------------------------------

  /** From `q` to `w` exactly the blocked uthreads among `events` were woken: they stand behind the
      run queue in the order of their reports, and the others stay blocked in their order. */
  ghost predicate Woke(q: Queues, w: Queues, events: seq<Uthread>) {
    && q.run <= w.run && InOrderOf(w.run[|q.run|..], events)
    && (forall u :: u in w.run[|q.run|..] ==> u in q.blocked && u in events)
    && (forall u :: u in q.blocked && u in events ==> u in w.run[|q.run|..])
    && Without(q.blocked, Elements(events), w.blocked)
  }

  lemma WokeNext(q: Queues, q': Queues, w: Queues, e: Uthread, rest: seq<Uthread>)
    requires Queued(q) && e in q.blocked && q' == q.(run := q.run + [e], blocked := Dropped(q.blocked, e))
    requires Woke(q', w, rest)
    ensures Woke(q, w, [e] + rest)
  {
    var t, t' := w.run[|q'.run|..], w.run[|q.run|..];
    Removed(q.blocked, e);
    assert e !in Elements(q'.blocked);
    assert w.run[|q.run|] == q'.run[|q.run|] == e;
    assert t' == [e] + t;
    InOrderConsed(e, t, rest);
    DroppedInOrder(q.blocked, e);
    InOrderThrough(w.blocked, q'.blocked, q.blocked);
    forall x | x in q.blocked ensures x in w.blocked <==> x !in Elements([e] + rest) {
      assert x in Elements(q.blocked) && (x in Elements([e] + rest) <==> x == e || x in Elements(rest));
      if x == e {
        assert x in w.blocked ==> x in Elements(q'.blocked);
      } else {
        assert x in Elements(q'.blocked);
      }
    }
    forall u | u in t' ensures u in q.blocked && u in [e] + rest {
      if u != e { assert u in t && u in Elements(q'.blocked) && u in Elements(q.blocked); }
    }
    forall u | u in q.blocked && u in [e] + rest ensures u in t' {
      if u != e { assert u in Elements(q.blocked) && u in Elements(q'.blocked); }
    }
  }

  lemma WokeNobody(q: Queues, w: Queues, e: Uthread, rest: seq<Uthread>)
    requires Queued(q) && e !in q.blocked && Woke(q, w, rest)
    ensures Woke(q, w, [e] + rest)
  {
    InOrderLonger(e, w.run[|q.run|..], rest);
  }

  lemma {:induction false} ReenabledAllWakes(q: Queues, events: seq<Uthread>)
    requires Queued(q)
    ensures Woke(q, ReenabledAll(q, events), events)
    decreases |events|
  {
    if events == [] {
      assert q.run[|q.run|..] == [];
      InOrderSame(q.blocked);
    } else {
      var q' := Reenabled(q, events[0]);
      ReenabledQueued(q, events[0]);
      ReenabledAllWakes(q', events[1..]);
      assert events == [events[0]] + events[1..];
      if events[0] in q.blocked {
        WokeNext(q, q', ReenabledAll(q', events[1..]), events[0], events[1..]);
      } else {
        WokeNobody(q, ReenabledAll(q', events[1..]), events[0], events[1..]);
      }
    }
  }

  /** A successful refresh wakes whom it has reports of, takes in the requests and buries the dead;
      a failed one does nothing. */
  lemma RefreshWakes(q: Queues, input: Input)
    requires Queued(q)
    ensures
      var w := Refreshed(q, input);
      if input.ok then
        Woke(q, w, input.events) && w.requests == q.requests + input.arrivals && w.dying == []
        && w.running == q.running && w.place == q.place
      else w == q
  {
    ReenabledAllWakes(q, input.events);
    ReenabledAllQueued(q, input.events);
  }

  lemma HiredQueued(q: Queues, spare: Uthread)
    requires Queued(q) && spare !in Live(q)
    ensures
      var w := Hired(q, spare);
      && Queued(w) && q.run <= w.run && Live(w) == Live(q) + (if q.requests == [] then {} else {spare})
      && w.blocked == q.blocked && w.dying == q.dying && w.running == q.running && w.place == q.place
  {
    Appended(q.run, spare);
  }

  lemma RotatedQueued(q: Queues)
    requires Queued(q) && q.running != null
    ensures
      var w := Rotated(q);
      && w.run == q.run[1..] + [q.run[0]] && NoTwice(w.run) && Elements(w.run) == Elements(q.run)
  {
    HeadRemoved(q.run);
    assert q.run == [q.run[0]] + q.run[1..];
    assert q.run[0] !in q.run[1..];
  }

  lemma DispatchedQueued(q: Queues, spare: Uthread)
    requires Queued(q) && (q.run == [] ==> spare !in Live(q))
    ensures
      var w := Dispatched(q, spare);
      && Queued(w) && w.blocked == q.blocked && w.dying == q.dying
      && Elements(w.run) == Elements(q.run) + (if q.run == [] && q.requests != [] then {spare} else {})
      && (w.running == null <==> q.run == [] && q.requests == [])
      && w.place == if w.running == null then q.place else OnUthread(w.running)
  {
    if q.running != null { RotatedQueued(q); }
  }

  /** The uthreads whose stacks a step frees. */
  ghost function Reaped(q: Queues, s: Step): set<Uthread> {
    match s
    case Block => {}
    case Create(_) => {}
    case Finish(input, _) => if q.requests != [] && input.ok then Elements(q.dying) else {}
    case _ => if s.input.ok then Elements(q.dying) else {}
  }

  /** The uthread a step makes, if it makes one. */
  ghost function Made(q: Queues, s: Step): set<Uthread>
    requires Enabled(q, s)
  {
    if !s.Block? && s.spare in Apply(q, s).run then {s.spare} else {}
  }

  /** The uthread a step may make is a new one. */
  ghost predicate Spare(q: Queues, s: Step) {
    !s.Block? ==> s.spare !in Live(q)
  }

  lemma BlockKeeps(q: Queues)
    requires WellFormed(q) && Enabled(q, Block)
    ensures WellFormed(Apply(q, Block)) && Live(Apply(q, Block)) == Live(q)
  {
    HeadRemoved(q.run);
    Removed(q.run, q.place.u);
    Appended(q.blocked, q.place.u);
  }

  lemma FinishKeeps(q: Queues, s: Step)
    requires WellFormed(q) && Enabled(q, s) && s.Finish? && q.requests == [] && Spare(q, s)
    ensures WellFormed(Apply(q, s)) && Live(Apply(q, s)) == Live(q) && Made(q, s) == {}
  {
    HeadRemoved(q.run);
    Removed(q.run, q.place.u);
    Appended(q.dying, q.place.u);
    assert s.spare !in Elements(Apply(q, s).run);
  }

  /** A refresh and a dispatch. */
  lemma TurnKeeps(q: Queues, input: Input, spare: Uthread)
    requires Queued(q) && spare !in Live(q)
    ensures
      var w := Dispatched(Refreshed(q, input), spare);
      && Queued(w) && (w.running != null ==> w.place == OnUthread(w.running))
      && (w.running == null ==> w.place == q.place && q.running == null)
      && Elements(q.run) + Elements(q.blocked) <= Elements(w.run) + Elements(w.blocked)
      && Live(w) == Live(q) - (if input.ok then Elements(q.dying) else {}) + (if spare in w.run then {spare} else {})
  {
    var r := Refreshed(q, input);
    RefreshedQueued(q, input);
    assert spare !in Live(r);
    DispatchedQueued(r, spare);
    assert spare in Dispatched(r, spare).run <==> spare in Elements(Dispatched(r, spare).run);
  }

  lemma CarrierTurnKeeps(q: Queues, input: Input, spare: Uthread)
    requires WellFormed(q) && q.place.OnCarrier? && spare !in Live(q)
    ensures
      var w := Dispatched(Hired(Refreshed(q, input), spare), spare);
      && WellFormed(w) && Elements(q.run) + Elements(q.blocked) <= Elements(w.run) + Elements(w.blocked)
      && Live(w) == Live(q) - (if input.ok then Elements(q.dying) else {}) + (if spare in w.run then {spare} else {})
  {
    var r := Refreshed(q, input);
    var h := Hired(r, spare);
    RefreshedQueued(q, input);
    assert spare !in Live(r);
    HiredQueued(r, spare);
    assert h.run == [] ==> r.requests == [] && spare !in Live(h);
    DispatchedQueued(h, spare);
    assert spare in Dispatched(h, spare).run <==> spare in Elements(Dispatched(h, spare).run);
  }

  /** Every step keeps each uthread on exactly one queue; none appears but the one made and
      none disappears but those freed. */
  lemma StepKeeps(q: Queues, s: Step)
    requires WellFormed(q) && Enabled(q, s) && Spare(q, s)
    ensures WellFormed(Apply(q, s)) && Live(Apply(q, s)) == Live(q) - Reaped(q, s) + Made(q, s)
  {
    match s
    case CarrierTurn(input, spare) => CarrierTurnKeeps(q, input, spare);
    case Yield(input, spare) => TurnKeeps(q, input, spare);
    case Block => BlockKeeps(q);
    case Wait(input, spare) => TurnKeeps(q, input, spare);
    case Finish(input, spare) =>
      if q.requests == [] {
        FinishKeeps(q, s);
      } else {
        TurnKeeps(q.(requests := q.requests[1..]), input, spare);
      }
    case Create(spare) => Appended(q.run, spare);
  }

  /** The reaper frees neither the stack it executes on, nor one that will be resumed, nor the
      one switched to. */
  lemma ReaperSafe(q: Queues, s: Step)
    requires WellFormed(q) && Enabled(q, s) && Spare(q, s)
    ensures !q.place.OnCarrier? ==> q.place.u !in Reaped(q, s)
    ensures Reaped(q, s) !! Elements(q.run) + Elements(q.blocked)
    ensures Reaped(q, s) !! Elements(Apply(q, s).run) + Elements(Apply(q, s).blocked)
    ensures !Apply(q, s).place.OnCarrier? ==> Apply(q, s).place.u in Live(Apply(q, s)) - Reaped(q, s)
  {
    StepKeeps(q, s);
    assert Made(q, s) !! Live(q);
    assert Live(Apply(q, s)) !! Reaped(q, s);
  }

  // ---- Bounded waiting ----------------------------------------------------------------------

  function Position(s: seq<Uthread>, u: Uthread): (i: nat)
    requires u in s
    ensures i < |s| && s[i] == u
  {
    if s[0] == u then 0 else 1 + Position(s[1..], u)
  }

  /** Scheduling decisions until `u` is dispatched. */
  function Distance(q: Queues, u: Uthread): nat
    requires u in q.run
  {
    Position(q.run, u) + if q.running == null then 1 else 0
  }

  /** A step that picks a target. */
  predicate Decides(q: Queues, s: Step)
    requires Enabled(q, s)
  {
    !s.Block? && !s.Create? && (s.Finish? ==> q.requests != []) && Apply(q, s).running != null
  }

  lemma {:induction false} PositionPrefix(s: seq<Uthread>, t: seq<Uthread>, u: Uthread)
    requires u in s && s <= t
    ensures u in t && Position(t, u) == Position(s, u)
  {
    if s[0] == u {
    } else {
      PositionPrefix(s[1..], t[1..], u);
    }
  }

  /** A refresh brings nobody nearer or further. */
  lemma RefreshedDistance(q: Queues, input: Input, u: Uthread)
    requires Queued(q) && u in q.run
    ensures u in Refreshed(q, input).run && Distance(Refreshed(q, input), u) == Distance(q, u)
  {
    RefreshedQueued(q, input);
    PositionPrefix(q.run, Refreshed(q, input).run, u);
  }

  /** A decision brings everybody waiting one nearer. */
  lemma DispatchedDistance(q: Queues, spare: Uthread, u: Uthread)
    requires Queued(q) && u in q.run && Distance(q, u) > 0
    ensures
      var w := Dispatched(q, spare);
      u in w.run && w.running != null && Distance(w, u) == Distance(q, u) - 1
  {
    if q.running != null {
      RotatedQueued(q);
      PositionPrefix(q.run[1..], Rotated(q).run, u);
    }
  }

  lemma StepDistance(q: Queues, s: Step, u: Uthread)
    requires WellFormed(q) && Enabled(q, s) && Spare(q, s) && u in q.run && Distance(q, u) > 0
    ensures u in Apply(q, s).run
    ensures Distance(Apply(q, s), u) == Distance(q, u) - if Decides(q, s) then 1 else 0
  {
    match s
    case CarrierTurn(input, spare) =>
      var r := Refreshed(q, input);
      RefreshedDistance(q, input, u);
      RefreshedQueued(q, input);
      assert spare !in Live(r);
      HiredQueued(r, spare);
      PositionPrefix(r.run, Hired(r, spare).run, u);
      DispatchedDistance(Hired(r, spare), spare, u);
    case Yield(input, spare) => RefreshedThenDispatched(q, input, spare, u);
    case Block => HeadRemoved(q.run);
    case Wait(input, spare) => RefreshedThenDispatched(q, input, spare, u);
    case Finish(input, spare) =>
      if q.requests == [] {
        HeadRemoved(q.run);
      } else {
        RefreshedThenDispatched(q.(requests := q.requests[1..]), input, spare, u);
      }
    case Create(spare) => PositionPrefix(q.run, q.run + [spare], u);
  }

  lemma RefreshedThenDispatched(q: Queues, input: Input, spare: Uthread, u: Uthread)
    requires Queued(q) && u in q.run && Distance(q, u) > 0
    ensures
      var w := Dispatched(Refreshed(q, input), spare);
      u in w.run && w.running != null && Distance(w, u) == Distance(q, u) - 1
  {
    RefreshedDistance(q, input, u);
    RefreshedQueued(q, input);
    DispatchedDistance(Refreshed(q, input), spare, u);
  }

  /** Step `s` refreshes successfully and has a report of `u`. */
  predicate Reports(q: Queues, s: Step, u: Uthread) {
    match s
    case Block => false
    case Create(_) => false
    case Finish(input, _) => q.requests != [] && input.ok && u in input.events
    case _ => s.input.ok && u in s.input.events
  }

  lemma SameNumber(q: Queues, w: Queues)
    requires Queued(q) && Queued(w)
    requires Elements(q.run) + Elements(q.blocked) == Elements(w.run) + Elements(w.blocked)
    ensures |q.run| + |q.blocked| == |w.run| + |w.blocked|
  {
    SizeOf(q.run);
    SizeOf(q.blocked);
    SizeOf(w.run);
    SizeOf(w.blocked);
    assert |Elements(q.run) + Elements(q.blocked)| == |q.run| + |q.blocked|;
    assert |Elements(w.run) + Elements(w.blocked)| == |w.run| + |w.blocked|;
  }

  lemma RefreshedWaker(q: Queues, input: Input, u: Uthread)
    requires Queued(q) && input.ok && u in q.blocked && u in input.events
    ensures
      var r := Refreshed(q, input);
      Queued(r) && u in r.run && 0 < Distance(r, u) <= |q.run| + |q.blocked|
  {
    var r := Refreshed(q, input);
    RefreshWakes(q, input);
    RefreshedQueued(q, input);
    SameNumber(q, r);
    assert u in r.run[|q.run|..];
    assert u in Elements(q.blocked);
    if q.running != null {
      assert r.run[0] == q.running && q.running in Elements(q.run);
    }
  }

  /** Once its event is reported a uthread is on the run queue, at most as many decisions from its
      turn as there are others. */
  lemma StepWakes(q: Queues, s: Step, u: Uthread)
    requires WellFormed(q) && Enabled(q, s) && Spare(q, s) && u in q.blocked && Reports(q, s, u)
    ensures u in Apply(q, s).run && Distance(Apply(q, s), u) < |q.run| + |q.blocked|
  {
    match s
    case CarrierTurn(input, spare) =>
      var r := Refreshed(q, input);
      RefreshedWaker(q, input, u);
      RefreshedQueued(q, input);
      assert spare !in Live(r);
      HiredQueued(r, spare);
      PositionPrefix(r.run, Hired(r, spare).run, u);
      DispatchedDistance(Hired(r, spare), spare, u);
    case Yield(input, spare) =>
      RefreshedWaker(q, input, u);
      DispatchedDistance(Refreshed(q, input), spare, u);
    case Wait(input, spare) =>
      RefreshedWaker(q, input, u);
      DispatchedDistance(Refreshed(q, input), spare, u);
    case Finish(input, spare) =>
      var w := q.(requests := q.requests[1..]);
      RefreshedWaker(w, input, u);
      DispatchedDistance(Refreshed(w, input), spare, u);
  }

  /** Unless it is reported a blocked uthread stays blocked. */
  lemma StepLeavesBlocked(q: Queues, s: Step, u: Uthread)
    requires WellFormed(q) && Enabled(q, s) && Spare(q, s) && u in q.blocked && !Reports(q, s, u)
    ensures u in Apply(q, s).blocked
  {
    match s
    case CarrierTurn(input, spare) => RefreshLeavesBlocked(q, input, u);
    case Yield(input, spare) => RefreshLeavesBlocked(q, input, u);
    case Wait(input, spare) => RefreshLeavesBlocked(q, input, u);
    case Finish(input, spare) =>
      if q.requests != [] { RefreshLeavesBlocked(q.(requests := q.requests[1..]), input, u); }
    case _ =>
  }

  lemma RefreshLeavesBlocked(q: Queues, input: Input, u: Uthread)
    requires Queued(q) && u in q.blocked && !(input.ok && u in input.events)
    ensures u in Refreshed(q, input).blocked
  {
    RefreshWakes(q, input);
  }

  /** Blocking blocks: the caller leaves the run queue and is the last of the blocked. */
  lemma BlockParks(q: Queues)
    requires WellFormed(q) && Enabled(q, Block)
    ensures
      var w, u := Apply(q, Block), q.place.u;
      && w.blocked == q.blocked + [u] && u !in w.run && Without(q.run, {u}, w.run)
      && w.running == null && w.place == Parked(u)
  {
    HeadRemoved(q.run);
    assert q.run[0] !in q.run[1..];
    DroppedInOrder(q.run, q.place.u);
  }

  /** Nobody who may run is lost to the run queue but who blocks or dies. */
  lemma ReadyStays(q: Queues, s: Step, u: Uthread)
    requires WellFormed(q) && Enabled(q, s) && Spare(q, s) && u in q.run
    ensures
      if (s.Block? || (s.Finish? && q.requests == [])) && u == q.place.u then u !in Apply(q, s).run
      else u in Apply(q, s).run
    ensures s.Finish? && q.requests == [] ==> q.place.u in Apply(q, s).dying && q.place.u !in Apply(q, s).blocked
  {
    assert u in Elements(q.run);
    match s
    case CarrierTurn(input, spare) =>
      var r := Refreshed(q, input);
      RefreshedQueued(q, input);
      assert u in r.run && u in Elements(r.run) && spare !in Live(r);
      HiredQueued(r, spare);
      assert u in Elements(Hired(r, spare).run);
      DispatchedQueued(Hired(r, spare), spare);
      assert u in Elements(Dispatched(Hired(r, spare), spare).run);
    case Yield(input, spare) => ReadyThroughTurn(q, input, spare, u);
    case Wait(input, spare) => ReadyThroughTurn(q, input, spare, u);
    case Block => Leaves(q, u);
    case Finish(input, spare) =>
      if q.requests == [] {
        Leaves(q, u);
      } else {
        ReadyThroughTurn(q.(requests := q.requests[1..]), input, spare, u);
      }
    case Create(spare) =>
  }

  lemma Leaves(q: Queues, u: Uthread)
    requires Queued(q) && q.running != null && u in q.run
    ensures u in Dropped<Uthread>(q.run, q.running) <==> u != q.running
    ensures q.running !in q.blocked
  {
    HeadRemoved(q.run);
    assert q.run == [q.run[0]] + q.run[1..] && q.run[0] !in q.run[1..];
    assert q.run[0] in Elements(q.run);
  }

  lemma ReadyThroughTurn(q: Queues, input: Input, spare: Uthread, u: Uthread)
    requires Queued(q) && spare !in Live(q) && u in q.run
    ensures u in Dispatched(Refreshed(q, input), spare).run
  {
    var r := Refreshed(q, input);
    RefreshedQueued(q, input);
    assert u in r.run && u in Elements(r.run) && spare !in Live(r);
    DispatchedQueued(r, spare);
    assert u in Elements(Dispatched(r, spare).run);
  }

  // ---- Whole runs -----------------------------------------------------------------------------

  /** A carrier starts with nothing to run; carrier 0 starts with the main uthread running. */
  function Init(main: Uthread?): Queues {
    if main == null then Queues([], [], [], [], null, OnCarrier) else Queues([main], [], [], [], main, OnCarrier)
  }

  ghost predicate Legal(q: Queues, run: seq<Step>)
    decreases |run|
  {
    run == [] || (Enabled(q, run[0]) && Spare(q, run[0]) && Legal(Apply(q, run[0]), run[1..]))
  }

  ghost function After(q: Queues, run: seq<Step>): Queues
    requires Legal(q, run)
    decreases |run|
  {
    if run == [] then q else After(Apply(q, run[0]), run[1..])
  }

  /** How many steps of a run pick a target. */
  ghost function Decisions(q: Queues, run: seq<Step>): nat
    requires Legal(q, run)
    decreases |run|
  {
    if run == [] then 0
    else (if Decides(q, run[0]) then 1 else 0) + Decisions(Apply(q, run[0]), run[1..])
  }

  lemma {:induction false} RunKeeps(q: Queues, run: seq<Step>)
    requires WellFormed(q) && Legal(q, run)
    ensures WellFormed(After(q, run))
    decreases |run|
  {
    if run == [] {
    } else {
      StepKeeps(q, run[0]);
      RunKeeps(Apply(q, run[0]), run[1..]);
    }
  }

  /** In every reachable state each uthread is on exactly one queue, and whatever step comes
      next frees no stack that executes or may be resumed. */
  lemma SchedulerSafety(main: Uthread?, run: seq<Step>, s: Step)
    requires Legal(Init(main), run)
    ensures WellFormed(After(Init(main), run))
    ensures
      var q := After(Init(main), run);
      Enabled(q, s) && Spare(q, s) ==>
        && (!q.place.OnCarrier? ==> q.place.u !in Reaped(q, s))
        && Reaped(q, s) !! Elements(q.run) + Elements(q.blocked)
        && (!Apply(q, s).place.OnCarrier? ==> Apply(q, s).place.u in Live(Apply(q, s)) - Reaped(q, s))
  {
    RunKeeps(Init(main), run);
    var q := After(Init(main), run);
    if Enabled(q, s) && Spare(q, s) { ReaperSafe(q, s); }
  }

  lemma {:induction false} WaitingShrinks(q: Queues, run: seq<Step>, u: Uthread)
    requires WellFormed(q) && Legal(q, run) && u in q.run && Decisions(q, run) < Distance(q, u)
    ensures WellFormed(After(q, run)) && u in After(q, run).run
    ensures Distance(After(q, run), u) == Distance(q, u) - Decisions(q, run)
    decreases |run|
  {
    if run == [] {
    } else {
      StepKeeps(q, run[0]);
      StepDistance(q, run[0], u);
      WaitingShrinks(Apply(q, run[0]), run[1..], u);
    }
  }

  lemma {:induction false} PrefixLegal(q: Queues, run: seq<Step>, k: nat)
    requires Legal(q, run) && k <= |run|
    ensures Legal(q, run[..k]) && Decisions(q, run[..k]) <= Decisions(q, run)
    decreases |run|
  {
    if k == 0 {
    } else {
      assert run[..k][1..] == run[1..][..k - 1];
      PrefixLegal(Apply(q, run[0]), run[1..], k - 1);
    }
  }

  /** Bounded waiting: a uthread at distance k is dispatched by the k-th decision from now and at
      no time before it, whatever yields, blocks, deaths, reincarnations, wakeups and requests occur. */
  lemma BoundedWaiting(q: Queues, run: seq<Step>, s: Step, u: Uthread)
    requires WellFormed(q) && Legal(q, run) && u in q.run && Decisions(q, run) + 1 == Distance(q, u)
    requires Enabled(After(q, run), s) && Spare(After(q, run), s) && Decides(After(q, run), s)
    ensures forall k :: 0 <= k <= |run| ==> Legal(q, run[..k]) && After(q, run[..k]).running != u
    ensures Apply(After(q, run), s).running == u && Apply(After(q, run), s).place == OnUthread(u)
  {
    forall k | 0 <= k <= |run| ensures Legal(q, run[..k]) && After(q, run[..k]).running != u {
      PrefixLegal(q, run, k);
      WaitingShrinks(q, run[..k], u);
    }
    WaitingShrinks(q, run, u);
    StepKeeps(After(q, run), s);
    StepDistance(After(q, run), s, u);
    DecisionPlaces(After(q, run), s);
  }

  /** Whoever waits to run is dispatched by the decision that its distance says, at the latest. */
  lemma {:induction false} RunsBy(q: Queues, run: seq<Step>, u: Uthread) returns (k: nat)
    requires WellFormed(q) && Legal(q, run) && u in q.run && Decisions(q, run) >= Distance(q, u)
    ensures k <= |run| && Legal(q, run[..k]) && After(q, run[..k]).running == u
    decreases |run|
  {
    if Distance(q, u) == 0 {
      k := 0;
      assert run[..0] == [];
    } else {
      StepKeeps(q, run[0]);
      StepDistance(q, run[0], u);
      k := RunsBy(Apply(q, run[0]), run[1..], u);
      k := k + 1;
      assert run[..k][1..] == run[1..][..k - 1];
    }
  }

  /** A blocked uthread whose event a refresh reports is dispatched after at most as many decisions
      as there are others that run or are blocked, whatever else happens. */
  lemma WokenRuns(q: Queues, s: Step, run: seq<Step>, u: Uthread) returns (k: nat)
    requires WellFormed(q) && Enabled(q, s) && Spare(q, s) && u in q.blocked && Reports(q, s, u)
    requires Legal(Apply(q, s), run) && Decisions(Apply(q, s), run) + 1 >= |q.run| + |q.blocked|
    ensures k <= |run| && Legal(Apply(q, s), run[..k]) && After(Apply(q, s), run[..k]).running == u
  {
    StepKeeps(q, s);
    StepWakes(q, s, u);
    k := RunsBy(Apply(q, s), run, u);
  }

  /** No step of the run reports `u`. */
  ghost predicate Unreported(q: Queues, run: seq<Step>, u: Uthread)
    requires Legal(q, run)
  {
    forall i :: 0 <= i < |run| ==> Legal(q, run[..i]) && !Reports(After(q, run[..i]), run[i], u)
  }

  lemma UnreportedRest(q: Queues, run: seq<Step>, u: Uthread)
    requires Legal(q, run) && run != [] && Unreported(q, run, u)
    ensures !Reports(q, run[0], u) && Unreported(Apply(q, run[0]), run[1..], u)
  {
    assert run[..0] == [] && Legal(q, run[..0]);
    forall i | 0 <= i < |run| - 1
      ensures Legal(Apply(q, run[0]), run[1..][..i])
      ensures !Reports(After(Apply(q, run[0]), run[1..][..i]), run[1..][i], u)
    {
      assert run[..i + 1][1..] == run[1..][..i] && Legal(q, run[..i + 1]);
    }
  }

  lemma {:induction false} BlockedAfter(q: Queues, run: seq<Step>, u: Uthread)
    requires WellFormed(q) && u in q.blocked && Legal(q, run) && Unreported(q, run, u)
    ensures WellFormed(After(q, run)) && u in After(q, run).blocked
    decreases |run|
  {
    if run == [] {
    } else {
      UnreportedRest(q, run, u);
      StepKeeps(q, run[0]);
      StepLeavesBlocked(q, run[0], u);
      BlockedAfter(Apply(q, run[0]), run[1..], u);
    }
  }

  /** On every run a blocked uthread stays blocked, and neither waits to run nor runs, until a
      successful refresh reports it. */
  lemma StaysBlocked(q: Queues, run: seq<Step>, u: Uthread)
    requires WellFormed(q) && u in q.blocked && Legal(q, run) && Unreported(q, run, u)
    ensures forall k :: 0 <= k <= |run| ==> Legal(q, run[..k]) && OnlyBlocked(After(q, run[..k]), u)
  {
    forall k | 0 <= k <= |run| ensures Legal(q, run[..k]) && OnlyBlocked(After(q, run[..k]), u) {
      PrefixLegal(q, run, k);
      assert forall i :: 0 <= i < k ==> run[..k][..i] == run[..i] && run[..k][i] == run[i];
      BlockedAfter(q, run[..k], u);
      assert u in Elements(After(q, run[..k]).blocked);
    }
  }

  ghost predicate OnlyBlocked(q: Queues, u: Uthread) {
    u in q.blocked && u !in q.run && q.running != u
  }

  lemma DecisionPlaces(q: Queues, s: Step)
    requires WellFormed(q) && Enabled(q, s) && Spare(q, s) && Decides(q, s)
    ensures Apply(q, s).place == OnUthread(Apply(q, s).running)
  {}

  // ---- Requests -------------------------------------------------------------------------------

  /** A uthread begins to serve a request. */
  datatype Start = Start(u: Uthread, request: Request)

  /** What a decision begins: only with nothing else to run does it take a request. */
  function TurnStarts(q: Queues, spare: Uthread): seq<Start> {
    if q.run == [] && q.requests != [] then [Start(spare, q.requests[0])] else []
  }

  /** What hiring begins. */
  function HireStarts(q: Queues, spare: Uthread): seq<Start> {
    if q.requests != [] then [Start(spare, q.requests[0])] else []
  }

  /** What a step begins. */
  function Starts(q: Queues, s: Step): seq<Start>
    requires Enabled(q, s)
  {
    match s
    case CarrierTurn(input, spare) => HireStarts(Refreshed(q, input), spare)
    case Yield(input, spare) => TurnStarts(Refreshed(q, input), spare)
    case Wait(input, spare) => TurnStarts(Refreshed(q, input), spare)
    case Finish(_, _) => HireStarts(q, q.place.u)
    case _ => []
  }

  function RequestsOf(starts: seq<Start>): seq<Request> {
    if starts == [] then [] else [starts[0].request] + RequestsOf(starts[1..])
  }

  /** The requests that a step finds in the message boxes. */
  function Arrived(q: Queues, s: Step): seq<Request> {
    match s
    case Block => []
    case Create(_) => []
    case Finish(input, _) => if q.requests != [] && input.ok then input.arrivals else []
    case _ => if s.input.ok then s.input.arrivals else []
  }

  lemma RefreshedRequests(q: Queues, input: Input)
    requires Queued(q)
    ensures Refreshed(q, input).requests == q.requests + if input.ok then input.arrivals else []
  {
    ReenabledAllQueued(q, input.events);
  }

  lemma TurnRequests(q: Queues, spare: Uthread)
    requires Queued(q)
    ensures RequestsOf(TurnStarts(q, spare)) + Dispatched(q, spare).requests == q.requests
  {}

  lemma HireRequests(q: Queues, spare: Uthread)
    ensures RequestsOf(HireStarts(q, spare)) + Dispatched(Hired(q, spare), spare).requests == q.requests
  {}

  /** Whenever the carrier has a request waiting it hires a uthread for the first. */
  lemma TurnHires(q: Queues, input: Input, spare: Uthread)
    requires WellFormed(q) && q.place.OnCarrier? && spare !in Live(q)
    ensures
      var w, waiting := Apply(q, CarrierTurn(input, spare)), q.requests + if input.ok then input.arrivals else [];
      waiting != [] ==>
        Starts(q, CarrierTurn(input, spare)) == [Start(spare, waiting[0])]
        && spare in w.run && w.requests == waiting[1..]
  {
    var r := Refreshed(q, input);
    RefreshedRequests(q, input);
    RefreshedQueued(q, input);
    if r.requests != [] {
      assert spare !in Live(r);
      HiredQueued(r, spare);
      assert spare in Hired(r, spare).run && spare in Elements(Hired(r, spare).run);
      DispatchedQueued(Hired(r, spare), spare);
      assert spare in Elements(Dispatched(Hired(r, spare), spare).run);
    }
  }

  lemma RefreshedTurnRequests(q: Queues, input: Input, spare: Uthread)
    requires Queued(q)
    ensures
      var r := Refreshed(q, input);
      RequestsOf(TurnStarts(r, spare)) + Dispatched(r, spare).requests
      == q.requests + if input.ok then input.arrivals else []
  {
    RefreshedRequests(q, input);
    RefreshedQueued(q, input);
    TurnRequests(Refreshed(q, input), spare);
  }

  /** The reborn uthread is there to run, so no other is made. */
  lemma RebirthRequests(q: Queues, input: Input, spare: Uthread)
    requires Queued(q) && q.run != [] && q.requests != []
    ensures
      var r := Refreshed(q.(requests := q.requests[1..]), input);
      [q.requests[0]] + Dispatched(r, spare).requests == q.requests + if input.ok then input.arrivals else []
  {
    var w := q.(requests := q.requests[1..]);
    RefreshedTurnRequests(w, input, spare);
    RefreshedQueued(w, input);
    Regrouped([q.requests[0]], w.requests, if input.ok then input.arrivals else []);
    assert q.requests == [q.requests[0]] + w.requests;
  }

  /** A step begins requests in the order in which they wait, and leaves the others waiting
      ahead of those that arrive. */
  lemma StepRequests(q: Queues, s: Step)
    requires WellFormed(q) && Enabled(q, s)
    ensures RequestsOf(Starts(q, s)) + Apply(q, s).requests == q.requests + Arrived(q, s)
  {
    match s
    case CarrierTurn(input, spare) =>
      RefreshedRequests(q, input);
      HireRequests(Refreshed(q, input), spare);
    case Yield(input, spare) => RefreshedTurnRequests(q, input, spare);
    case Wait(input, spare) => RefreshedTurnRequests(q, input, spare);
    case Finish(input, spare) => if q.requests != [] { RebirthRequests(q, input, spare); }
    case _ =>
  }

  /** The requests that a run begins, in order. */
  ghost function Begun(q: Queues, run: seq<Step>): seq<Request>
    requires Legal(q, run)
    decreases |run|
  {
    if run == [] then [] else RequestsOf(Starts(q, run[0])) + Begun(Apply(q, run[0]), run[1..])
  }

  /** The requests that arrive during a run, in order. */
  ghost function Received(q: Queues, run: seq<Step>): seq<Request>
    requires Legal(q, run)
    decreases |run|
  {
    if run == [] then [] else Arrived(q, run[0]) + Received(Apply(q, run[0]), run[1..])
  }

  /** No request is lost, started twice or overtaken: those begun, then those still waiting, are
      those that waited at first, then those that arrived. */
  lemma {:induction false} RequestsInOrder(q: Queues, run: seq<Step>)
    requires WellFormed(q) && Legal(q, run)
    ensures Begun(q, run) + After(q, run).requests == q.requests + Received(q, run)
    decreases |run|
  {
    if run == [] {
    } else {
      var w := Apply(q, run[0]);
      StepKeeps(q, run[0]);
      StepRequests(q, run[0]);
      RequestsInOrder(w, run[1..]);
      ShiftRequests(RequestsOf(Starts(q, run[0])), Begun(w, run[1..]), After(q, run).requests, w.requests,
                    Received(w, run[1..]), q.requests, Arrived(q, run[0]));
    }
  }

  lemma ShiftRequests(first: seq<Request>, later: seq<Request>, last: seq<Request>, middle: seq<Request>,
                      received: seq<Request>, waiting: seq<Request>, arrived: seq<Request>)
    requires later + last == middle + received && first + middle == waiting + arrived
    ensures (first + later) + last == waiting + (arrived + received)
  {
    Regrouped(first, later, last);
    Regrouped(first, middle, received);
    Regrouped(waiting, arrived, received);
  }

  // ---- The code --------------------------------------------------------------------------------

  datatype Option<T> = None | Some(value: T)

  /** What began is for `u` to run, and its entrance is the request. */
  ghost predicate Serves(u: Uthread?, starts: seq<Start>)
    reads u
  {
    forall i :: 0 <= i < |starts| ==> starts[i].u == u && starts[i].u.entrance == starts[i].request
  }

  class Sched {
    var running: Uthread?
    var runQueue: seq<Uthread>
    var blockingQueue: seq<Uthread>
    var dyingQueue: seq<Uthread>
    var requestQueue: seq<Request>
    var place: Place

    ghost function View(): Queues
      reads this
    {
      Queues(runQueue, blockingQueue, dyingQueue, requestQueue, running, place)
    }

    ghost predicate Statuses()
      reads this, blockingQueue
    {
      forall i :: 0 <= i < |blockingQueue| ==> blockingQueue[i].status == Blocking
    }

    ghost predicate Valid()
      reads this, blockingQueue
    {
      WellFormed(View()) && Statuses()
    }

    /** `p7r_scheduler_init`; the main uthread is put on the queue of carrier 0 by `p7r_init`. */
    constructor (main: Uthread?)
      ensures Valid() && View() == Init(main)
    {
      running, runQueue, blockingQueue, dyingQueue := main, if main == null then [] else [main], [], [];
      requestQueue, place := [], OnCarrier;
    }

    /** Delegations are reported for blocked uthreads, or for ones already running again. */
    ghost predicate Reportable(events: seq<Uthread>)
      reads this, events
    {
      forall i :: 0 <= i < |events| && events[i].status != Running ==> events[i] in blockingQueue
    }

    method Reenable(u: Uthread, ghost events: seq<Uthread>)
      requires Queued(View()) && Statuses() && (u.status != Running ==> u in blockingQueue) && Reportable(events)
      modifies `runQueue, `blockingQueue, u`status
      ensures View() == Reenabled(old(View()), u) && Queued(View()) && Statuses() && Reportable(events)
      ensures u.status == Running && u !in blockingQueue
      ensures if old(u.status) == Running then runQueue == old(runQueue) && blockingQueue == old(blockingQueue)
              else runQueue == old(runQueue) + [u] && Without(old(blockingQueue), {u}, blockingQueue)
    {
      ReenabledQueued(View(), u);
      if u.status != Running {
        WithoutOne(blockingQueue, u);
        Removed(blockingQueue, u);
        blockingQueue := Dropped(blockingQueue, u);
        runQueue := runQueue + [u];
        u.status := Running;
        forall i | 0 <= i < |blockingQueue| ensures blockingQueue[i].status == Blocking {
          assert blockingQueue[i] in Elements(blockingQueue);
        }
        forall i | 0 <= i < |events| && events[i].status != Running ensures events[i] in blockingQueue {
          assert events[i] in old(Elements(blockingQueue)) - {u};
        }
      }
    }

    /** Phase 3 of the refresh: the reported delegations. */
    method HandleEvents(events: seq<Uthread>, ghost later: seq<Uthread>)
      requires Queued(View()) && Statuses() && Reportable(events + later)
      modifies `runQueue, `blockingQueue, Elements(events)`status
      ensures View() == ReenabledAll(old(View()), events) && Queued(View()) && Statuses() && Reportable(later)
      ensures forall u :: u in events ==> u.status == Running
    {
      ghost var all := events + later;
      var i := 0;
      while i < |events|
        invariant i <= |events|
        invariant Queued(View()) && Statuses() && Reportable(all)
        invariant forall k :: 0 <= k < i ==> events[k].status == Running
        invariant ReenabledAll(View(), events[i..]) == ReenabledAll(old(View()), events)
        invariant dyingQueue == old(dyingQueue) && requestQueue == old(requestQueue)
      {
        assert events[i..][0] == events[i] && events[i..][1..] == events[i + 1..];
        assert all[i] == events[i];
        Reenable(events[i], all);
        i := i + 1;
      }
      forall k | 0 <= k < |later| && later[k].status != Running ensures later[k] in blockingQueue {
        assert all[|events| + k] == later[k];
      }
    }

    /** Phase 4: the requests in the message boxes, in order. */
    method TakeMessages(arrivals: seq<Request>)
      modifies `requestQueue
      ensures requestQueue == old(requestQueue) + arrivals
    {
      var i := 0;
      while i < |arrivals|
        invariant i <= |arrivals| && requestQueue == old(requestQueue) + arrivals[..i]
      {
        requestQueue := requestQueue + [arrivals[i]];
        i := i + 1;
      }
    }

    /** Phase 6: the stacks of the dead. */
    method Reap() returns (reaped: seq<Uthread>)
      modifies `dyingQueue
      ensures reaped == old(dyingQueue) && dyingQueue == []
    {
      reaped := [];
      while dyingQueue != []
        invariant reaped + dyingQueue == old(dyingQueue)
        decreases |dyingQueue|
      {
        reaped := reaped + [dyingQueue[0]];
        dyingQueue := dyingQueue[1..];
      }
    }

    /** `sched_bus_refresh`: -1 when epoll_wait fails; otherwise events, messages, then the reaper. */
    method BusRefresh(input: Input, ghost later: seq<Uthread>) returns (rc: int, reaped: seq<Uthread>)
      requires Queued(View()) && Statuses() && Reportable(input.events + later)
      modifies `runQueue, `blockingQueue, `dyingQueue, `requestQueue, Elements(input.events)`status
      ensures View() == Refreshed(old(View()), input) && Queued(View()) && Statuses() && Reportable(later)
      ensures rc == (if input.ok then 0 else -1) && reaped == if input.ok then old(dyingQueue) else []
      ensures input.ok ==> Woke(old(View()), View(), input.events)
      ensures input.ok ==> forall u :: u in input.events ==> u.status == Running
      ensures input.ok ==> requestQueue == old(requestQueue) + input.arrivals && dyingQueue == []
      ensures !input.ok ==> View() == old(View())
    {
      RefreshWakes(View(), input);
      if !input.ok {
        forall k | 0 <= k < |later| && later[k].status != Running ensures later[k] in blockingQueue {
          assert (input.events + later)[|input.events| + k] == later[k];
        }
        return -1, [];
      }
      RefreshedQueued(View(), input);
      ReenabledAllQueued(View(), input.events);
      HandleEvents(input.events, later);
      TakeMessages(input.arrivals);
      reaped := Reap();
      rc := 0;
    }

    method CherryPick() returns (r: Option<Request>)
      modifies `requestQueue
      ensures r == if old(requestQueue) == [] then None else Some(old(requestQueue)[0])
      ensures requestQueue == if old(requestQueue) == [] then [] else old(requestQueue)[1..]
    {
      if requestQueue == [] { return None; }
      r := Some(requestQueue[0]);
      requestQueue := requestQueue[1..];
    }

    /** The last target goes to the end of the run queue. */
    method Rotate()
      requires Queued(View())
      modifies `runQueue
      ensures View() == Rotated(old(View())) && NoTwice(runQueue) && Elements(runQueue) == old(Elements(runQueue))
    {
      if running != null {
        RotatedQueued(View());
        var lastTarget: Uthread := running;
        runQueue := Dropped(runQueue, lastTarget);
        runQueue := runQueue + [lastTarget];
      }
    }

    /** `sched_resched_target` with swarm scheduling off.  `leftover` is what the memory of a new
        uthread holds; `spare` is the uthread made, or one that stands for it. */
    method ReschedTarget(leftover: Status) returns (t: Uthread?, ghost spare: Uthread)
      requires Queued(View()) && Statuses()
      modifies `runQueue, `requestQueue, `running
      ensures t == null <==> old(runQueue) == [] && old(requestQueue) == []
      ensures t == running && View() == Picked(Rotated(old(View())), spare) && Queued(View()) && Statuses()
      ensures t != null ==> t in runQueue && t !in blockingQueue && (t == spare || t in old(Elements(runQueue)))
      ensures fresh(spare) && Serves(spare, TurnStarts(old(View()), spare))
    {
      ghost var q0 := View();
      spare := new Uthread.Unused();
      Rotate();
      if runQueue == [] {
        var request := CherryPick();
        if request.None? {
          t := null;
          return;
        }
        var u := new Uthread(request.value, leftover);
        spare := u;
        runQueue := runQueue + [u];
      }
      assert spare !in Live(q0);
      running := runQueue[0];
      t := running;
      DispatchedQueued(q0, spare);
      assert t in Elements(runQueue);
    }

    /** The context switch.  Whatever `t` resumes in, it runs with the status of a running uthread. */
    method SwitchTo(t: Uthread)
      requires Statuses() && t !in blockingQueue
      modifies `place, t`status
      ensures place == OnUthread(t) && Statuses() && t.status == Running
    {
      place := OnUthread(t);
      t.status := Running;
    }

    /** A refresh that leads to `w`. */
    method RefreshTo(input: Input, ghost later: seq<Uthread>, ghost w: Queues)
      requires Queued(View()) && Statuses() && Reportable(input.events + later) && w == Refreshed(View(), input)
      modifies `runQueue, `blockingQueue, `dyingQueue, `requestQueue, Elements(input.events)`status
      ensures View() == w && Queued(w) && Statuses() && Reportable(later)
      ensures Elements(w.run) <= old(Elements(runQueue) + Elements(blockingQueue))
    {
      RefreshedQueued(View(), input);
      var rc, reaped := BusRefresh(input, later);
    }

    /** A decision from `q`, and the switch to the target if there is one. */
    method Dispatch(leftover: Status, ghost q: Queues) returns (t: Uthread?, ghost spare: Uthread)
      requires View() == q && Queued(q) && Statuses()
      modifies this, Elements(runQueue)`status
      ensures View() == Dispatched(q, spare) && Queued(View()) && Statuses() && t == running
      ensures t == null <==> q.run == [] && q.requests == []
      ensures t == null ==> View() == q
      ensures t != null ==> t.status == Running
      ensures fresh(spare) && Serves(spare, TurnStarts(q, spare))
    {
      t, spare := ReschedTarget(leftover);
      if t != null { SwitchTo(t); }
    }

    /** A refresh, a decision and the switch to the target if there is one. */
    method Turn(input: Input, leftover: Status, ghost later: seq<Uthread>, ghost r: Queues)
      returns (t: Uthread?, ghost spare: Uthread)
      requires Queued(View()) && Statuses() && Reportable(input.events + later) && r == Refreshed(View(), input)
      modifies this, Elements(runQueue)`status, Elements(blockingQueue)`status, Elements(input.events)`status
      ensures View() == Dispatched(r, spare) && Queued(View()) && Statuses() && t == running
      ensures t == null <==> r.run == [] && r.requests == []
      ensures t == null ==> Reportable(later) && View() == r
      ensures t != null ==> t.status == Running
      ensures fresh(spare) && Serves(spare, TurnStarts(r, spare))
    {
      RefreshTo(input, later, r);
      t, spare := Dispatch(leftover, r);
    }

    method Yield(input: Input, leftover: Status) returns (target: Uthread, ghost spare: Uthread)
      requires Valid() && place.OnUthread? && Reportable(input.events)
      modifies this, Elements(runQueue)`status, Elements(blockingQueue)`status, Elements(input.events)`status
      ensures Valid() && target == running && target.status == Running
      ensures View() == Apply(old(View()), Step.Yield(input, spare)) && spare !in old(Live(View()))
      ensures fresh(spare) && Serves(spare, Starts(old(View()), Step.Yield(input, spare)))
      ensures old(running) in runQueue
    {
      assert input.events + [] == input.events;
      RefreshedQueued(View(), input);
      ghost var q, self := View(), running;
      target, spare := Turn(input, leftover, [], Refreshed(View(), input));
      assert spare !in Live(q) && self in q.run;
      ReadyStays(q, Step.Yield(input, spare), self);
    }

    /** What may be reported once the running uthread is blocked. */
    ghost predicate SoonReportable(events: seq<Uthread>)
      reads this, events
    {
      forall i :: 0 <= i < |events| && events[i].status != Running ==>
                    events[i] == running || events[i] in blockingQueue
    }

    /** The first half of `p7r_blocking_point`. */
    method Park(ghost events: seq<Uthread>)
      requires Valid() && place.OnUthread? && SoonReportable(events)
      modifies this, running`status
      ensures Valid() && View() == Apply(old(View()), Block) && Reportable(events)
      ensures blockingQueue == old(blockingQueue) + [old(running)] && old(running).status == Blocking
      ensures old(running) !in runQueue && Without(old(runQueue), {old(running)}, runQueue) && running == null
    {
      BlockKeeps(View());
      BlockParks(View());
      var self: Uthread := running;
      runQueue := Dropped(runQueue, self);
      self.status := Blocking;
      blockingQueue := blockingQueue + [self];
      running := null;
      place := Parked(self);
    }

    /** One round of the loop of `p7r_blocking_point`. */
    method WaitRound(input: Input, leftover: Status, ghost later: seq<Uthread>)
      returns (target: Uthread?, ghost spare: Uthread)
      requires Valid() && place.Parked? && Reportable(input.events + later)
      modifies this, Elements(runQueue)`status, Elements(blockingQueue)`status, Elements(input.events)`status
      ensures Valid() && View() == Apply(old(View()), Wait(input, spare)) && spare !in old(Live(View()))
      ensures fresh(spare) && Serves(spare, Starts(old(View()), Wait(input, spare)))
      ensures target == running
      ensures target == null ==> place.Parked? && Reportable(later)
      ensures target == null ==>
                Elements(runQueue) + Elements(blockingQueue) == old(Elements(runQueue) + Elements(blockingQueue))
      ensures target != null ==> place == OnUthread(target) && target.status == Running
    {
      RefreshedQueued(View(), input);
      target, spare := Turn(input, leftover, later, Refreshed(View(), input));
    }

    /** Where the loop of `p7r_blocking_point` stands after `rounds` of its rounds. */
    ghost predicate Waits(q0: Queues, inputs: seq<Input>, rounds: nat, target: Uthread?, trace: seq<Step>)
      requires rounds <= |inputs|
      reads this, blockingQueue, Elements(EventsOf(inputs[rounds..])), target
    {
      && Valid() && Traced(q0, trace, inputs[..rounds], View())
      && (if target == null then place.Parked? && Reportable(EventsOf(inputs[rounds..]))
          else place == OnUthread(target) && target.status == Running)
    }

    /** Round `k` of the loop. */
    method WaitNext(inputs: seq<Input>, k: nat, leftover: Status, ghost q0: Queues, ghost trace: seq<Step>)
      returns (target: Uthread?, ghost trace': seq<Step>)
      requires k < |inputs| && Waits(q0, inputs, k, null, trace)
      modifies this, Elements(runQueue)`status, Elements(blockingQueue)`status, Elements(inputs[k].events)`status
      ensures Waits(q0, inputs, k + 1, target, trace')
      ensures fresh(SparesOf(trace') - SparesOf(trace))
      ensures target == null ==>
                Elements(runQueue) + Elements(blockingQueue) == old(Elements(runQueue) + Elements(blockingQueue))
    {
      FirstEvents(inputs, k);
      ghost var spare;
      target, spare := WaitRound(inputs[k], leftover, EventsOf(inputs[k + 1..]));
      OneMoreWait(q0, trace, inputs, k, spare);
      trace' := trace + [Wait(inputs[k], spare)];
      SparesMore(trace, Wait(inputs[k], spare));
    }

    /** The loop of `p7r_blocking_point`, for as many rounds as there are inputs. */
    method WaitRounds(inputs: seq<Input>, leftover: Status, ghost q0: Queues)
      returns (rounds: nat, target: Uthread?, ghost trace: seq<Step>)
      requires Waits(q0, inputs, 0, null, [Block])
      modifies this, Elements(runQueue)`status, Elements(blockingQueue)`status, Elements(EventsOf(inputs))`status
      ensures rounds <= |inputs| && Waits(q0, inputs, rounds, target, trace)
      ensures target == null ==> rounds == |inputs|
      ensures fresh(SparesOf(trace))
    {
      ghost var all, live := EventsOf(inputs), Elements(runQueue) + Elements(blockingQueue);
      rounds, target, trace := 0, null, [Block];
      assert inputs[0..] == inputs;
      while rounds < |inputs| && target == null
        invariant rounds <= |inputs| && Waits(q0, inputs, rounds, target, trace)
        invariant target == null ==> Elements(runQueue) + Elements(blockingQueue) <= live
        invariant Elements(EventsOf(inputs[rounds..])) <= Elements(all)
        invariant fresh(SparesOf(trace))
        decreases |inputs| - rounds
      {
        FirstEvents(inputs, rounds);
        target, trace := WaitNext(inputs, rounds, leftover, q0, trace);
        rounds := rounds + 1;
      }
    }

    /** `p7r_blocking_point`, for as many rounds of its loop as there are inputs.  `trace` is what
        it does: the caller blocks, and each round but the last leaves it waiting. */
    method BlockingPoint(inputs: seq<Input>, leftover: Status)
      returns (rounds: nat, target: Uthread?, ghost trace: seq<Step>)
      requires Valid() && place.OnUthread?
      requires SoonReportable(EventsOf(inputs))
      modifies this, Elements(runQueue)`status, Elements(blockingQueue)`status, Elements(EventsOf(inputs))`status
      ensures Valid() && rounds <= |inputs| && Traced(old(View()), trace, inputs[..rounds], View())
      ensures target == null ==> rounds == |inputs| && place.Parked?
      ensures target != null ==> place == OnUthread(target) && target.status == Running
      ensures fresh(SparesOf(trace))
      ensures (forall i :: 0 <= i < rounds ==> !(inputs[i].ok && old(running) in inputs[i].events)) ==>
                OnlyBlocked(View(), old(running)) && target != old(running)
    {
      ghost var q0 := View();
      Park(EventsOf(inputs));
      BlockTraced(q0);
      assert inputs[0..] == inputs && inputs[..0] == [];
      rounds, target, trace := WaitRounds(inputs, leftover, q0);
      ParkedUntilReported(q0, trace, inputs[..rounds], View());
    }

    /** `p7r_uthread_lifespan`, from the return of the user function to the next switch: the
        uthread is reborn with a waiting request, or dies and leaves its stack to the reaper. */
    method Finish(input: Input, leftover: Status) returns (target: Uthread?, ghost spare: Uthread)
      requires Valid() && place.OnUthread? && Reportable(input.events) && running !in input.events
      modifies running`entrance, this
      modifies Elements(runQueue)`status, Elements(blockingQueue)`status, Elements(input.events)`status
      ensures Valid() && View() == Apply(old(View()), Step.Finish(input, spare)) && spare !in old(Live(View()))
      ensures fresh(spare) && Serves(old(running), Starts(old(View()), Step.Finish(input, spare)))
      ensures target == running && (target == null <==> old(requestQueue) == [])
      ensures target != null ==> old(running).entrance == old(requestQueue)[0] && target.status == Running
      ensures target == null ==> old(running).status == Dying && place.OnCarrier?
      ensures if target != null then old(running) in runQueue
              else old(running) in dyingQueue && old(running) !in runQueue && old(running) !in blockingQueue
    {
      ghost var q := View();
      var self: Uthread := running;
      assert self in Elements(runQueue) && self !in Elements(blockingQueue);
      self.status := Limbo;
      var reincarnation := CherryPick();
      if reincarnation.Some? {
        self.entrance := reincarnation.value;
        assert input.events + [] == input.events;
        RefreshedQueued(View(), input);
        target, spare := Turn(input, leftover, [], Refreshed(View(), input));
      } else {
        Die(self);
        target := null;
        spare := new Uthread.Unused();
      }
      assert spare !in Live(q);
      ReadyStays(q, Step.Finish(input, spare), self);
    }

    /** The end of `p7r_uthread_lifespan`. */
    method Die(self: Uthread)
      requires Queued(View()) && Statuses() && running == self && self !in Elements(blockingQueue)
      modifies `runQueue, `dyingQueue, `running, `place, self`status
      ensures Queued(View()) && Statuses() && self.status == Dying
      ensures View() == old(View()).(run := Dropped(old(runQueue), self), dying := old(dyingQueue) + [self],
                                     running := null, place := OnCarrier)
    {
      HeadRemoved(runQueue);
      Removed(runQueue, self);
      Appended(dyingQueue, self);
      runQueue := Dropped(runQueue, self);
      self.status := Dying;
      dyingQueue := dyingQueue + [self];
      running := null;
      place := OnCarrier;
    }

    /** The carrier starts the first waiting request. */
    method Hire(leftover: Status) returns (ghost spare: Uthread)
      requires Queued(View()) && Statuses()
      modifies `runQueue, `requestQueue
      ensures fresh(spare) && View() == Hired(old(View()), spare) && Queued(View()) && Statuses()
      ensures Serves(spare, HireStarts(old(View()), spare))
      ensures old(requestQueue) != [] ==> runQueue == old(runQueue) + [spare] && spare.entrance == old(requestQueue)[0]
      ensures requestQueue == if old(requestQueue) == [] then [] else old(requestQueue)[1..]
      ensures Elements(runQueue) <= old(Elements(runQueue)) + {spare}
    {
      spare := new Uthread.Unused();
      var request := CherryPick();
      if request.Some? {
        var made := new Uthread(request.value, leftover);
        assert made !in Live(View());
        Appended(runQueue, made);
        runQueue := runQueue + [made];
        spare := made;
      }
    }

    /** Hires for a waiting request, and switches to the next target. */
    method HireAndDispatch(leftover: Status, ghost q: Queues) returns (target: Uthread?, ghost spare: Uthread)
      requires View() == q && Queued(q) && Statuses()
      modifies this, Elements(runQueue)`status
      ensures View() == Dispatched(Hired(q, spare), spare) && Queued(View()) && Statuses() && target == running
      ensures target != null ==> target.status == Running
      ensures fresh(spare) && Serves(spare, HireStarts(q, spare))
    {
      spare := Hire(leftover);
      ghost var h, unused := Hired(q, spare), spare;
      target, unused := Dispatch(leftover, h);
      SpareUnused(h, unused, spare);
    }

    /** One round of the loop of `p7r_carrier_lifespan`, up to the switch to its target. */
    method CarrierTurn(input: Input, leftover: Status) returns (target: Uthread?, ghost spare: Uthread)
      requires Valid() && place.OnCarrier? && Reportable(input.events)
      modifies this, Elements(runQueue)`status, Elements(blockingQueue)`status, Elements(input.events)`status
      ensures Valid() && target == running && (target != null ==> target.status == Running)
      ensures View() == Apply(old(View()), Step.CarrierTurn(input, spare)) && spare !in old(Live(View()))
      ensures fresh(spare) && Serves(spare, Starts(old(View()), Step.CarrierTurn(input, spare)))
      ensures
        var waiting := old(requestQueue) + if input.ok then input.arrivals else [];
        waiting != [] ==> spare in runQueue && spare.entrance == waiting[0] && requestQueue == waiting[1..]
    {
      ghost var q, r := View(), Refreshed(View(), input);
      assert input.events + [] == input.events;
      RefreshTo(input, [], r);
      target, spare := HireAndDispatch(leftover, r);
      assert spare !in Live(q);
      CarrierTurnKeeps(q, input, spare);
      TurnHires(q, input, spare);
      ghost var starts := Starts(q, Step.CarrierTurn(input, spare));
      assert starts != [] ==> starts[0].u.entrance == starts[0].request;
    }

    /** `p7r_uthread_create_` when the new uthread is to run on the same carrier. */
    method CreateLocal(entrance: Request, leftover: Status) returns (u: Uthread)
      requires Valid() && place.OnUthread?
      modifies `runQueue
      ensures Valid() && fresh(u) && u.entrance == entrance && runQueue == old(runQueue) + [u]
      ensures View() == Apply(old(View()), Create(u)) && u !in old(Live(View()))
    {
      u := new Uthread(entrance, leftover);
      assert u !in Live(View());
      Appended(runQueue, u);
      runQueue := runQueue + [u];
    }
  }

  function EventsOf(inputs: seq<Input>): seq<Uthread> {
    if inputs == [] then [] else inputs[0].events + EventsOf(inputs[1..])
  }

  lemma FirstEvents(inputs: seq<Input>, k: nat)
    requires k < |inputs|
    ensures EventsOf(inputs[k..]) == inputs[k].events + EventsOf(inputs[k + 1..])
    ensures Elements(EventsOf(inputs[k..])) == Elements(inputs[k].events) + Elements(EventsOf(inputs[k + 1..]))
  {
    assert inputs[k..][1..] == inputs[k + 1..];
  }

  /** A block, then a wait for each input. */
  predicate WaitsFor(trace: seq<Step>, inputs: seq<Input>) {
    && |trace| == |inputs| + 1 && trace[0] == Block
    && forall i :: 0 < i < |trace| ==> trace[i].Wait? && trace[i].input == inputs[i - 1]
  }

  /** The run `trace`, a block and a wait for each input, leads from `q` to `w`. */
  ghost predicate Traced(q: Queues, trace: seq<Step>, inputs: seq<Input>, w: Queues) {
    Legal(q, trace) && After(q, trace) == w && WaitsFor(trace, inputs)
  }

  /** The uthreads that the steps of a run may make. */
  ghost function SparesOf(trace: seq<Step>): set<Uthread> {
    set i | 0 <= i < |trace| && !trace[i].Block? :: trace[i].spare
  }

  lemma SparesMore(trace: seq<Step>, s: Step)
    requires !s.Block?
    ensures SparesOf(trace + [s]) == SparesOf(trace) + {s.spare}
  {
    var t := trace + [s];
    forall i | 0 <= i < |trace| && !trace[i].Block? ensures trace[i].spare in SparesOf(t) {
      assert t[i] == trace[i];
    }
    assert t[|trace|] == s;
  }

  lemma BlockTraced(q: Queues)
    requires Enabled(q, Block)
    ensures Traced(q, [Block], [], Apply(q, Block))
  {
    assert [Block][1..] == [];
  }

  /** Whoever blocks stays blocked while the rounds of waiting bring no report of it. */
  lemma ParkedUntilReported(q: Queues, trace: seq<Step>, inputs: seq<Input>, w: Queues)
    requires WellFormed(q) && Enabled(q, Block) && Traced(q, trace, inputs, w)
    ensures (forall i :: 0 <= i < |inputs| ==> !(inputs[i].ok && q.place.u in inputs[i].events)) ==>
              OnlyBlocked(w, q.place.u)
  {
    if forall i :: 0 <= i < |inputs| ==> !(inputs[i].ok && q.place.u in inputs[i].events) {
      var p, waits, u := Apply(q, Block), trace[1..], q.place.u;
      BlockKeeps(q);
      BlockParks(q);
      forall i | 0 <= i < |waits| ensures Legal(p, waits[..i]) && !Reports(After(p, waits[..i]), waits[i], u) {
        PrefixLegal(p, waits, i);
        assert waits[i] == trace[i + 1] && waits[i].input == inputs[i];
      }
      StaysBlocked(p, waits, u);
      assert waits[..|waits|] == waits;
    }
  }

  lemma OneMoreWait(q: Queues, trace: seq<Step>, inputs: seq<Input>, k: nat, spare: Uthread)
    requires k < |inputs| && Legal(q, trace) && WaitsFor(trace, inputs[..k])
    requires After(q, trace).place.Parked? && spare !in Live(After(q, trace))
    ensures Traced(q, trace + [Wait(inputs[k], spare)], inputs[..k + 1], Apply(After(q, trace), Wait(inputs[k], spare)))
  {
    OneMoreStep(q, trace, Wait(inputs[k], spare));
  }

  lemma {:induction false} OneMoreStep(q: Queues, run: seq<Step>, s: Step)
    requires Legal(q, run) && Enabled(After(q, run), s) && Spare(After(q, run), s)
    ensures Legal(q, run + [s]) && After(q, run + [s]) == Apply(After(q, run), s)
    decreases |run|
  {
    if run == [] {
      assert run + [s] == [s] && [s][1..] == [];
    } else {
      assert (run + [s])[1..] == run[1..] + [s];
      OneMoreStep(Apply(q, run[0]), run[1..], s);
    }
  }

  /** Where there is something to run, or nothing to make, a decision makes no uthread. */
  lemma SpareUnused(q: Queues, a: Uthread, b: Uthread)
    requires q.run != [] || q.requests == []
    ensures Picked(Rotated(q), a) == Picked(Rotated(q), b)
  {}

  // ---- Whole runs of the code -------------------------------------------------------------------

  /** What happens next: a round of the carrier, a yield or a round of waiting, whichever the place
      calls for; or the uthread that executes blocks, returns or creates another.  A refresh finds
      the blocked uthreads at the positions `woken` reported. */
  datatype Move =
    | Round(ok: bool, woken: seq<nat>, arrivals: seq<Request>, leftover: Status)
    | Sleep
    | Return(ok: bool, woken: seq<nat>, arrivals: seq<Request>, leftover: Status)
    | Spawn(entrance: Request, leftover: Status)

  function Chosen(q: seq<Uthread>, woken: seq<nat>): (events: seq<Uthread>)
    ensures forall e :: e in events ==> e in q
  {
    if woken == [] then [] else (if woken[0] < |q| then [q[woken[0]]] else []) + Chosen(q, woken[1..])
  }

  lemma ChosenBlocked(q: seq<Uthread>, woken: seq<nat>)
    ensures Elements(Chosen(q, woken)) <= Elements(q)
  {}

  /** Who begins whatever a step begins. */
  function Starter(q: Queues, s: Step): Uthread?
    requires Enabled(q, s)
  {
    match s
    case Block => null
    case Finish(_, _) => q.place.u
    case _ => s.spare
  }

  /** `step` is what led from `q` to `s`, and who begins to serve a request has it. */
  ghost predicate Stepped(q: Queues, step: Step, s: Sched)
    reads s, s.blockingQueue, if Enabled(q, step) then {Starter(q, step)} else {}
  {
    && s.Valid() && Enabled(q, step) && Spare(q, step)
    && s.View() == Apply(q, step) && Serves(Starter(q, step), Starts(q, step))
  }

  method ActRound(s: Sched, move: Move) returns (ghost step: Step)
    requires s.Valid() && move.Round?
    modifies s, Elements(s.runQueue), Elements(s.blockingQueue)
    ensures Stepped(old(s.View()), step, s) && !step.Block? && fresh(step.spare)
  {
    var input := Input(move.ok, Chosen(s.blockingQueue, move.woken), move.arrivals);
    ChosenBlocked(s.blockingQueue, move.woken);
    if s.place.OnCarrier? {
      ghost var spare;
      var t;
      t, spare := s.CarrierTurn(input, move.leftover);
      step := CarrierTurn(input, spare);
    } else {
      step := ActInUthread(s, input, move.leftover);
    }
  }

  /** A yield, or a round of waiting. */
  method ActInUthread(s: Sched, input: Input, leftover: Status) returns (ghost step: Step)
    requires s.Valid() && !s.place.OnCarrier? && s.Reportable(input.events)
    requires Elements(input.events) <= Elements(s.blockingQueue)
    modifies s, Elements(s.runQueue), Elements(s.blockingQueue)
    ensures Stepped(old(s.View()), step, s) && !step.Block? && fresh(step.spare)
  {
    ghost var spare;
    if s.place.OnUthread? {
      var t;
      t, spare := s.Yield(input, leftover);
      step := Yield(input, spare);
    } else {
      assert input.events + [] == input.events;
      var t;
      t, spare := s.WaitRound(input, leftover, []);
      step := Wait(input, spare);
    }
  }

  method ActReturn(s: Sched, move: Move) returns (ghost step: Step)
    requires s.Valid() && move.Return? && s.place.OnUthread?
    modifies s, Elements(s.runQueue), Elements(s.blockingQueue)
    ensures Stepped(old(s.View()), step, s) && !step.Block? && fresh(step.spare)
  {
    var input := Input(move.ok, Chosen(s.blockingQueue, move.woken), move.arrivals);
    ChosenBlocked(s.blockingQueue, move.woken);
    assert s.running in Elements(s.runQueue) && s.running !in Elements(s.blockingQueue);
    ghost var spare;
    var t;
    t, spare := s.Finish(input, move.leftover);
    step := Finish(input, spare);
  }

  /** One move; a carrier that executes no uthread can only go round. */
  method Act(s: Sched, move: Move) returns (ghost step: Option<Step>)
    requires s.Valid()
    modifies s, Elements(s.runQueue), Elements(s.blockingQueue)
    ensures step == None <==> !move.Round? && !old(s.place).OnUthread?
    ensures step == None ==> s.Valid() && s.View() == old(s.View())
    ensures step != None ==> Stepped(old(s.View()), step.value, s)
    ensures step != None && !step.value.Block? ==> fresh(step.value.spare)
  {
    if move.Round? {
      ghost var done := ActRound(s, move);
      step := Some(done);
    } else if !s.place.OnUthread? {
      step := None;
    } else if move.Return? {
      ghost var done := ActReturn(s, move);
      step := Some(done);
    } else if move.Sleep? {
      assert s.running in Elements(s.runQueue);
      s.Park([]);
      step := Some(Block);
    } else {
      var u := s.CreateLocal(move.entrance, move.leftover);
      step := Some(Create(u));
    }
  }

  /** The entrance of a uthread, as often as it began to serve. */
  ghost function Entrances(u: Uthread?, n: nat): seq<Request>
    requires n > 0 ==> u != null
    reads u
  {
    if n == 0 then [] else [u.entrance] + Entrances(u, n - 1)
  }

  lemma {:induction false} ServedEntrances(u: Uthread?, starts: seq<Start>)
    requires Serves(u, starts)
    ensures (|starts| > 0 ==> u != null) && Entrances(u, |starts|) == RequestsOf(starts)
  {
    if starts == [] {
    } else {
      assert starts[0].u == u;
      assert forall i :: 0 <= i < |starts| - 1 ==> starts[1..][i] == starts[i + 1];
      ServedEntrances(u, starts[1..]);
    }
  }

  lemma {:induction false} BegunMore(q: Queues, run: seq<Step>, s: Step)
    requires Legal(q, run) && Enabled(After(q, run), s) && Spare(After(q, run), s)
    ensures Legal(q, run + [s]) && Begun(q, run + [s]) == Begun(q, run) + RequestsOf(Starts(After(q, run), s))
    decreases |run|
  {
    OneMoreStep(q, run, s);
    if run == [] {
      assert run + [s] == [s] && [s][1..] == [];
    } else {
      var w := Apply(q, run[0]);
      assert (run + [s])[1..] == run[1..] + [s];
      BegunMore(w, run[1..], s);
      Regrouped(RequestsOf(Starts(q, run[0])), Begun(w, run[1..]), RequestsOf(Starts(After(q, run), s)));
    }
  }

  /** `trace` is a legal run that leads to `s`, and `started` are the entrances that uthreads began
      with, in order. */
  ghost predicate Ran(s: Sched, main: Uthread?, trace: seq<Step>, started: seq<Request>)
    reads s, s.blockingQueue
  {
    && s.Valid() && Legal(Init(main), trace) && s.View() == After(Init(main), trace)
    && started == Begun(Init(main), trace)
  }

  method ActNext(s: Sched, move: Move, ghost main: Uthread?, ghost trace: seq<Step>, ghost started: seq<Request>)
    returns (ghost trace': seq<Step>, ghost started': seq<Request>, ghost made: set<Uthread>)
    requires Ran(s, main, trace, started)
    modifies s, Elements(s.runQueue), Elements(s.blockingQueue)
    ensures Ran(s, main, trace', started') && fresh(made) && Live(s.View()) <= old(Live(s.View())) + made
  {
    ghost var q := s.View();
    ghost var step := Act(s, move);
    trace', started', made := trace, started, {};
    if step != None {
      ghost var starts := Starts(q, step.value);
      ServedEntrances(Starter(q, step.value), starts);
      started' := started + Entrances(Starter(q, step.value), |starts|);
      trace' := trace + [step.value];
      OneMoreStep(Init(main), trace, step.value);
      BegunMore(Init(main), trace, step.value);
      StepKeeps(q, step.value);
      made := Made(q, step.value);
    }
  }

  /** A new scheduler after any moves has made a legal run, so `SchedulerSafety` and
      `BoundedWaiting` speak of it; and the requests started, then those waiting, are those that
      arrived, in order. */
  method Replay(moves: seq<Move>, withMain: bool)
    returns (s: Sched, ghost main: Uthread?, ghost trace: seq<Step>, ghost started: seq<Request>)
    ensures fresh(s) && Ran(s, main, trace, started) && (main != null <==> withMain)
    ensures started + s.requestQueue == Received(Init(main), trace)
  {
    var first: Uthread? := null;
    if withMain { first := new Uthread(0, Running); }
    s := new Sched(first);
    main, trace, started := first, [], [];
    ghost var uthreads, made := Live(s.View()), {};
    var i := 0;
    while i < |moves|
      invariant i <= |moves| && Ran(s, main, trace, started)
      invariant fresh(s) && fresh(uthreads) && Live(s.View()) <= uthreads
    {
      trace, started, made := ActNext(s, moves[i], main, trace, started);
      uthreads := uthreads + made;
      i := i + 1;
    }
    RequestsInOrder(Init(main), trace);
  }
}
