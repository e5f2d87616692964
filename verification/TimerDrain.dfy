/** p7/p7impl.c: the timer queue of a p7 carrier and the loop that expires its timers. */
module TimerDrain {
  import opened Comparators
  import opened Lists
  import opened RbShape
  import opened RbHeap
  import opened Rbt

  /** `p7_timer_compare`, on the expiry times that the keys refer to. */
  function TimerCompare(lhs: int, rhs: int): int {
    if lhs == rhs then 0 else if lhs < rhs then -1 else 1
  }

  /** The timer comparator is one the tree accepts. */
  lemma TimerCompareThreeWay()
    ensures ThreeWay(TimerCompare)
  {
    forall a, b, c {:trigger Compared(a, b, c)} | Compared(a, b, c)
      ensures -1 <= TimerCompare(a, b) <= 1 && TimerCompare(a, b) == -TimerCompare(b, a)
      ensures TimerCompare(a, b) <= 0 && TimerCompare(b, c) <= 0 ==> TimerCompare(a, c) <= 0
    {}
  }

  /** The fields of `struct p7_coro` that the loop touches. */
  class Coro {
    var timedout: bool
    var resched: bool

    constructor ()
      ensures !timedout && !resched
    {
      timedout, resched := false, false;
    }
  }

  /** `struct p7_timer_event`; its `tval` is the key of the embedded tree node. */
  class TimerEvent {
    const node: Node
    const coro: Coro?
    var triggered: bool

    constructor (tval: int, coro: Coro?)
      ensures node.key == tval && this.coro == coro && !triggered && fresh(node)
    {
      node := new Node(tval);
      this.coro, triggered := coro, false;
    }
  }

  // ---- What firing timers does, as a value --------------------------------------------------

  /** The queues of the carrier and which of its coroutines and timers are marked. */
  datatype View = View(run: seq<Coro>, blocked: seq<Coro>,
                       resched: set<Coro>, timedout: set<Coro>, triggered: set<TimerEvent>)

  function Minus(s: seq<Coro>, gone: seq<Coro>): seq<Coro> {
    if s == [] then [] else if s[0] in gone then Minus(s[1..], gone) else [s[0]] + Minus(s[1..], gone)
  }

  /** A coroutine not yet rescheduled leaves its queue for the end of the run queue. */
  function Woken(v: View, c: Coro): View {
    if c in v.resched then v
    else v.(run := Minus(v.run, [c]) + [c], blocked := Minus(v.blocked, [c]), resched := v.resched + {c})
  }

  function Fired(v: View, e: TimerEvent): View {
    var w := v.(triggered := v.triggered + {e});
    if e.coro == null then w else Woken(w.(timedout := w.timedout + {e.coro}), e.coro)
  }

  function FiredAll(v: View, s: seq<TimerEvent>): View
    decreases |s|
  {
    if s == [] then v else FiredAll(Fired(v, s[0]), s[1..])
  }

  /** The coroutines that a sequence of timers wakes, in the order of waking, when those in
      `resched` are on the run queue already. */
  function Wakes(s: seq<TimerEvent>, resched: set<Coro>): seq<Coro> {
    if s == [] then []
    else if s[0].coro == null || s[0].coro in resched then Wakes(s[1..], resched)
    else [s[0].coro] + Wakes(s[1..], resched + {s[0].coro})
  }

  /** `Minus` takes out exactly the elements of `gone`. */
  lemma {:induction false} MinusMembers(s: seq<Coro>, gone: seq<Coro>)
    ensures forall x :: x in Minus(s, gone) ==> x in s && x !in gone
    ensures forall x :: x in s && x !in gone ==> x in Minus(s, gone)
  {
    if s == [] {
    } else {
      MinusMembers(s[1..], gone);
      assert s == [s[0]] + s[1..];
    }
  }

  /** Of a list without repetition it leaves the rest in order. */
  lemma {:induction false} MinusInOrder(s: seq<Coro>, gone: seq<Coro>)
    requires NoTwice(s)
    ensures NoTwice(Minus(s, gone)) && Without(s, Elements(gone), Minus(s, gone))
  {
    MinusMembers(s, gone);
    if s == [] {
    } else {
      var t := Minus(s[1..], gone);
      MinusInOrder(s[1..], gone);
      MinusMembers(s[1..], gone);
      assert s == [s[0]] + s[1..] && s[0] !in s[1..] && s[0] !in t;
      if s[0] in gone {
        InOrderLonger(s[0], t, s[1..]);
      } else {
        InOrderConsed(s[0], t, s[1..]);
      }
    }
  }

  lemma {:induction false} MinusConcat(a: seq<Coro>, b: seq<Coro>, gone: seq<Coro>)
    ensures Minus(a + b, gone) == Minus(a, gone) + Minus(b, gone)
  {
    if a == [] {
      assert a + b == b;
    } else {
      MinusConcat(a[1..], b, gone);
      assert (a + b)[1..] == a[1..] + b;
      if a[0] !in gone {
        Regrouped([a[0]], Minus(a[1..], gone), Minus(b, gone));
      }
    }
  }

  lemma {:induction false} MinusMinus(s: seq<Coro>, c: Coro, gone: seq<Coro>)
    ensures Minus(Minus(s, [c]), gone) == Minus(s, [c] + gone)
  {
    if s == [] {
    } else {
      MinusMinus(s[1..], c, gone);
    }
  }

  lemma {:induction false} WakesFresh(s: seq<TimerEvent>, resched: set<Coro>)
    ensures forall i :: 0 <= i < |Wakes(s, resched)| ==> Wakes(s, resched)[i] !in resched
    ensures forall i, j :: 0 <= i < j < |Wakes(s, resched)| ==> Wakes(s, resched)[i] != Wakes(s, resched)[j]
  {
    if s == [] {
    } else {
      if s[0].coro == null || s[0].coro in resched {
        WakesFresh(s[1..], resched);
      } else {
        WakesFresh(s[1..], resched + {s[0].coro});
      }
    }
  }

  lemma WokenFirst(run: seq<Coro>, c: Coro, rest: seq<Coro>)
    requires c !in rest
    ensures Minus(Minus(run, [c]) + [c], rest) + rest == Minus(run, [c] + rest) + ([c] + rest)
  {
    MinusConcat(Minus(run, [c]), [c], rest);
    MinusMinus(run, c, rest);
    MinusOne(c, rest);
    Regrouped(Minus(run, [c] + rest), [c], rest);
  }

  lemma MinusOne(c: Coro, gone: seq<Coro>)
    requires c !in gone
    ensures Minus([c], gone) == [c]
  {
    assert [c][1..] == [];
  }

  /** Firing timers puts the coroutines they wake at the end of the run queue, in firing order. */
  lemma {:induction false} FiredQueues(v: View, s: seq<TimerEvent>)
    ensures
      var f := Wakes(s, v.resched);
      FiredAll(v, s).run == Minus(v.run, f) + f && FiredAll(v, s).blocked == Minus(v.blocked, f)
    decreases |s|
  {
    if s == [] {
      MinusNothing(v.run);
      MinusNothing(v.blocked);
    } else {
      var w := Fired(v, s[0]);
      FiredQueues(w, s[1..]);
      if s[0].coro != null && s[0].coro !in v.resched {
        WakesFresh(s[1..], w.resched);
        WokenFirst(v.run, s[0].coro, Wakes(s[1..], w.resched));
        MinusMinus(v.blocked, s[0].coro, Wakes(s[1..], w.resched));
      }
    }
  }

  lemma {:induction false} MinusNothing(s: seq<Coro>)
    ensures Minus(s, []) == s
  {
    if s == [] {
    } else {
      MinusNothing(s[1..]);
    }
  }

  ghost function Events(s: seq<TimerEvent>): set<TimerEvent> { set e | e in s }

  ghost function Coros(s: seq<TimerEvent>): set<Coro> { set e | e in s && e.coro != null :: e.coro }

  lemma EventsSplit(s: seq<TimerEvent>)
    requires s != []
    ensures Events(s) == {s[0]} + Events(s[1..])
    ensures Coros(s) == (if s[0].coro == null then {} else {s[0].coro}) + Coros(s[1..])
  {
    assert s == [s[0]] + s[1..];
    if s[0].coro != null { assert s[0].coro in Coros(s); }
  }

  /** No coroutine is queued twice. */
  ghost predicate QueuedOnce(v: View) {
    NoTwice(v.run) && NoTwice(v.blocked) && Elements(v.run) !! Elements(v.blocked)
  }

  /** The coroutine that runs is queued, and at the head unless a timer has sent it to the end. */
  ghost predicate AtHead(v: View, running: Coro?) {
    running != null ==> running in v.run && (running in v.resched || v.run[0] == running)
  }

  lemma WokenApart(v: View, c: Coro)
    requires QueuedOnce(v)
    ensures QueuedOnce(Woken(v, c))
  {
    MinusInOrder(v.run, [c]);
    MinusInOrder(v.blocked, [c]);
    var run, blocked := Minus(v.run, [c]), Minus(v.blocked, [c]);
    assert c !in run && c !in blocked;
    Appended(run, c);
    forall x | x in run ensures x in Elements(v.run) {}
    forall x | x in blocked ensures x in Elements(v.blocked) {}
  }

  lemma WokenAtHead(v: View, running: Coro?, c: Coro)
    requires AtHead(v, running)
    ensures AtHead(Woken(v, c), running)
  {
    if running != null && running != c && c !in v.resched {
      MinusKeeps(v.run, c, running);
      if running !in v.resched { assert Minus(v.run, [c])[0] == running; }
    }
  }

  lemma {:induction false} FiredApart(v: View, s: seq<TimerEvent>, running: Coro?)
    requires QueuedOnce(v) && AtHead(v, running)
    ensures QueuedOnce(FiredAll(v, s)) && AtHead(FiredAll(v, s), running)
    decreases |s|
  {
    if s == [] {
    } else {
      if s[0].coro != null {
        var w := v.(triggered := v.triggered + {s[0]}, timedout := v.timedout + {s[0].coro});
        WokenApart(w, s[0].coro);
        WokenAtHead(w, running, s[0].coro);
      }
      FiredApart(Fired(v, s[0]), s[1..], running);
    }
  }

  /** The coroutines of a sequence of timers, in order. */
  function CorosOf(s: seq<TimerEvent>): seq<Coro> {
    if s == [] then [] else if s[0].coro == null then CorosOf(s[1..]) else [s[0].coro] + CorosOf(s[1..])
  }

  /** The coroutines that firing `s` sends to the end of the run queue. */
  ghost function Newly(v: View, s: seq<TimerEvent>): set<Coro> { Coros(s) - v.resched }

  lemma {:induction false} WakesAre(s: seq<TimerEvent>, resched: set<Coro>)
    ensures NoTwice(Wakes(s, resched)) && Elements(Wakes(s, resched)) == Coros(s) - resched
    ensures InOrderOf(Wakes(s, resched), CorosOf(s))
    decreases |s|
  {
    if s == [] {
    } else {
      EventsSplit(s);
      if s[0].coro == null {
        WakesAre(s[1..], resched);
      } else {
        var c: Coro := s[0].coro;
        if c in resched {
          WakesAre(s[1..], resched);
          assert c !in Elements(Wakes(s[1..], resched));
          InOrderLonger(c, Wakes(s[1..], resched), CorosOf(s[1..]));
        } else {
          WakesAre(s[1..], resched + {c});
          WakesFirst(c, Wakes(s[1..], resched + {c}), CorosOf(s[1..]), Coros(s[1..]), resched);
        }
      }
    }
  }

  lemma WakesFirst(c: Coro, t: seq<Coro>, rest: seq<Coro>, coros: set<Coro>, resched: set<Coro>)
    requires NoTwice(t) && Elements(t) == coros - (resched + {c}) && InOrderOf(t, rest) && c !in resched
    ensures NoTwice([c] + t) && Elements([c] + t) == {c} + coros - resched && InOrderOf([c] + t, [c] + rest)
  {
    assert c !in Elements(t);
    InOrderConsed(c, t, rest);
    assert Elements([c] + t) == {c} + Elements(t);
  }

  /** Firing `s` led from `v` to `w`: the coroutines not yet rescheduled left their queues and stand
      at the end of the run queue, each once, in the order of their first timers; everybody else
      stands as before. */
  ghost predicate Moved(v: View, w: View, s: seq<TimerEvent>) {
    var gone := Newly(v, s);
    && |gone| <= |w.run|
    && var k := |w.run| - |gone|;
       && Without(v.run, gone, w.run[..k]) && Without(v.blocked, gone, w.blocked)
       && Elements(w.run[k..]) == gone && InOrderOf(w.run[k..], CorosOf(s))
  }

  lemma FiredMoves(v: View, s: seq<TimerEvent>)
    requires QueuedOnce(v)
    ensures Moved(v, FiredAll(v, s), s)
  {
    var f, w := Wakes(s, v.resched), FiredAll(v, s);
    FiredQueues(v, s);
    WakesAre(s, v.resched);
    SizeOf(f);
    MinusInOrder(v.run, f);
    MinusInOrder(v.blocked, f);
    assert w.run[..|w.run| - |f|] == Minus(v.run, f) && w.run[|w.run| - |f|..] == f;
  }

  /** Every rescheduled coroutine is on the run queue. */
  ghost predicate Settled(v: View) {
    forall c :: c in v.resched ==> c in v.run
  }

  lemma FiredSettled(v: View, e: TimerEvent)
    requires Settled(v)
    ensures Settled(Fired(v, e))
  {
    var w := Fired(v, e);
    if e.coro != null && e.coro !in v.resched {
      forall c | c in w.resched ensures c in w.run {
        if c != e.coro { MinusKeeps(v.run, e.coro, c); }
      }
    }
  }

  /** Firing marks exactly the timers fired, and exactly their coroutines time out; these end
      rescheduled and on the run queue. */
  lemma {:induction false} FiredMarks(v: View, s: seq<TimerEvent>)
    requires Settled(v)
    ensures Settled(FiredAll(v, s))
    ensures FiredAll(v, s).triggered == v.triggered + Events(s)
    ensures FiredAll(v, s).timedout == v.timedout + Coros(s)
    ensures FiredAll(v, s).resched == v.resched + Coros(s)
    decreases |s|
  {
    if s == [] {
    } else {
      FiredSettled(v, s[0]);
      FiredMarks(Fired(v, s[0]), s[1..]);
      EventsSplit(s);
    }
  }

  lemma FiredLands(v: View, s: seq<TimerEvent>, e: TimerEvent)
    requires Settled(v) && e in s
    ensures
      var w := FiredAll(v, s);
      e in w.triggered && (e.coro != null ==> e.coro in w.timedout && e.coro in w.resched && e.coro in w.run)
  {
    FiredMarks(v, s);
    assert e in Events(s);
    if e.coro != null { assert e.coro in Coros(s); }
  }

  lemma {:induction false} MinusKeeps(s: seq<Coro>, gone: Coro, c: Coro)
    requires c in s && c != gone
    ensures c in Minus(s, [gone])
  {
    if s[0] == c {
    } else {
      MinusKeeps(s[1..], gone, c);
    }
  }

  lemma {:induction false} FiredMore(v: View, s: seq<TimerEvent>, e: TimerEvent)
    ensures FiredAll(v, s + [e]) == Fired(FiredAll(v, s), e)
    decreases |s|
  {
    if s == [] {
      assert s + [e] == [e];
    } else {
      assert (s + [e])[1..] == s[1..] + [e];
      FiredMore(Fired(v, s[0]), s[1..], e);
    }
  }

  // ---- The carrier ------------------------------------------------------------------------

  ghost function NodesOf(s: seq<TimerEvent>): seq<Node> {
    seq(|s|, i requires 0 <= i < |s| => s[i].node)
  }

  /** `fired`, off a queue that was `before` and now is `after`, are the timers due at `now`. */
  ghost predicate Expired(before: seq<Node>, fired: seq<TimerEvent>, after: seq<Node>, now: int) {
    && before == NodesOf(fired) + after
    && (forall i :: 0 <= i < |fired| ==> fired[i].node.key <= now)
    && (forall i :: 0 <= i < |after| ==> after[i].key > now)
    && (forall i, j :: 0 <= i < j < |fired| ==> fired[i].node.key <= fired[j].node.key)
  }

  ghost predicate DueSoFar(before: seq<Node>, fired: seq<TimerEvent>, rest: seq<Node>, now: int) {
    before == NodesOf(fired) + rest && forall i :: 0 <= i < |fired| ==> fired[i].node.key <= now
  }

  lemma NoneFired(before: seq<Node>, v: View, now: int)
    ensures DueSoFar(before, [], before, now) && FiredAll(v, []) == v
  {
    assert NodesOf([]) + before == before;
  }

  lemma OneMoreFired(before: seq<Node>, fired: seq<TimerEvent>, e: TimerEvent, rest: seq<Node>, now: int)
    requires DueSoFar(before, fired, rest, now) && rest != [] && e.node == rest[0] && e.node.key <= now
    ensures DueSoFar(before, fired + [e], rest[1..], now)
  {
    assert NodesOf(fired + [e]) == NodesOf(fired) + [rest[0]];
    assert rest == [rest[0]] + rest[1..];
  }

  lemma AllDue(before: seq<Node>, fired: seq<TimerEvent>, after: seq<Node>, now: int)
    requires Sorted(TimerCompare, before) && DueSoFar(before, fired, after, now)
    requires after != [] ==> after[0].key > now
    ensures Expired(before, fired, after, now)
  {
    forall i | 0 <= i < |after| ensures after[i].key > now {
      assert before[|fired|] == after[0] && before[|fired| + i] == after[i];
    }
    forall i, j | 0 <= i < j < |fired| ensures fired[i].node.key <= fired[j].node.key {
      assert before[i] == fired[i].node && before[j] == fired[j].node;
    }
  }

  /** Each of `nodes` is embedded in a timer of `events`. */
  ghost predicate Owned(owners: map<Node, TimerEvent>, events: set<TimerEvent>, nodes: set<Node>) {
    forall n :: n in nodes ==> n in owners && owners[n] in events && owners[n].node == n
  }

  /** Every timer is either pending, one of `nodes`, or triggered. */
  ghost predicate Booked(owners: map<Node, TimerEvent>, events: set<TimerEvent>, nodes: set<Node>,
                         triggered: set<TimerEvent>) {
    forall e :: e in events ==> e.node in owners && owners[e.node] == e && (e in triggered <==> e.node !in nodes)
  }

  lemma OneMoreTimer(owners: map<Node, TimerEvent>, events: set<TimerEvent>, nodes: set<Node>,
                     triggered: set<TimerEvent>, e: TimerEvent)
    requires Owned(owners, events, nodes) && Booked(owners, events, nodes, triggered)
    requires e !in events && e !in triggered && e.node !in owners && e.node !in nodes
    ensures Owned(owners[e.node := e], events + {e}, nodes + {e.node})
    ensures Booked(owners[e.node := e], events + {e}, nodes + {e.node}, triggered)
  {}

  /** The run queue after `last` ran and another is to run. */
  function Requeued(q: seq<Coro>, last: Coro?): seq<Coro> {
    if q != [] && last == q[0] then q[1..] + [q[0]] else q
  }

  lemma RequeuedSame(q: seq<Coro>, last: Coro?)
    ensures Elements(Requeued(q, last)) == Elements(q)
    ensures forall c :: c in q <==> c in Requeued(q, last)
  {
    if q != [] { assert q == [q[0]] + q[1..]; }
  }

  lemma RequeuedSettled(v: View, last: Coro?)
    requires Settled(v)
    ensures
      var q := Requeued(v.run, last);
      Settled(v.(run := q, resched := v.resched - if q == [] then {} else {q[0]}))
  {
    RequeuedSame(v.run, last);
  }

  lemma {:induction false} FiredRun(v: View, s: seq<TimerEvent>, coros: set<Coro>)
    requires Elements(v.run) <= coros && Coros(s) <= coros
    ensures Elements(FiredAll(v, s).run) <= coros
    decreases |s|
  {
    if s == [] {
    } else {
      EventsSplit(s);
      if s[0].coro != null { MinusWithin(v.run, s[0].coro); }
      FiredRun(Fired(v, s[0]), s[1..], coros);
    }
  }

  lemma {:induction false} MinusWithin(s: seq<Coro>, c: Coro)
    ensures Elements(Minus(s, [c])) <= Elements(s)
  {
    if s == [] {
    } else {
      MinusWithin(s[1..], c);
      assert s == [s[0]] + s[1..];
      assert Elements(s) == {s[0]} + Elements(s[1..]);
    }
  }

  lemma SettledMore(v: View, c: Coro)
    requires Settled(v)
    ensures Settled(v.(run := v.run + [c]))
  {}

  lemma SettledWithout(v: View, c: Coro)
    requires Settled(v) && c !in v.resched
    ensures Settled(v.(run := Minus(v.run, [c])))
  {
    forall x | x in v.resched ensures x in Minus(v.run, [c]) { MinusKeeps(v.run, c, x); }
  }

  /** Firing what is due keeps the books, and triggers exactly the timers due. */
  lemma Swept(owners: map<Node, TimerEvent>, events: set<TimerEvent>, before: seq<Node>, fired: seq<TimerEvent>,
              after: seq<Node>, triggered: set<TimerEvent>, now: int)
    requires Owned(owners, events, Elements(before)) && Booked(owners, events, Elements(before), triggered)
    requires Expired(before, fired, after, now) && Events(fired) <= events
    ensures Booked(owners, events, Elements(after), triggered + Events(fired))
    ensures forall e :: e in events ==> (e in triggered + Events(fired) <==> e in triggered || e.node.key <= now)
  {
    forall e | e in events
      ensures e in triggered + Events(fired) <==> e.node !in Elements(after)
      ensures e in triggered + Events(fired) <==> e in triggered || e.node.key <= now
    {
      SweptOne(owners, events, before, fired, after, triggered, now, e);
    }
  }

  lemma SweptOne(owners: map<Node, TimerEvent>, events: set<TimerEvent>, before: seq<Node>, fired: seq<TimerEvent>,
                 after: seq<Node>, triggered: set<TimerEvent>, now: int, e: TimerEvent)
    requires Owned(owners, events, Elements(before)) && Booked(owners, events, Elements(before), triggered)
    requires Expired(before, fired, after, now) && Events(fired) <= events && e in events
    ensures e in triggered + Events(fired) <==> e.node !in Elements(after)
    ensures e in triggered + Events(fired) <==> e in triggered || e.node.key <= now
  {
    assert Elements(before) == Elements(NodesOf(fired)) + Elements(after);
    if e in Events(fired) {
      var i :| 0 <= i < |fired| && fired[i] == e;
      assert fired[i].node.key <= now;
    }
    if e.node in Elements(NodesOf(fired)) {
      var i :| 0 <= i < |NodesOf(fired)| && NodesOf(fired)[i] == e.node;
      assert fired[i] in Events(fired) && owners[fired[i].node] == fired[i];
    }
  }

  /** Of `events`, the timers due at `now` and those fired before are triggered.  The `fired` ones
      are, and their coroutines have timed out, are rescheduled and are on the run queue. */
  ghost predicate Landed(events: set<TimerEvent>, fired: seq<TimerEvent>, v: View, w: View, now: int) {
    && (forall e :: e in events ==> (e in w.triggered <==> e in v.triggered || e.node.key <= now))
    && (forall e :: e in fired ==> e in w.triggered && e in events)
    && (forall e :: e in fired && e.coro != null ==> e.coro in w.timedout && e.coro in w.resched)
    && (forall e :: e in fired && e.coro != null ==> e.coro in w.run && e.coro !in w.blocked)
  }

  lemma SweepLands(owners: map<Node, TimerEvent>, events: set<TimerEvent>, coros: set<Coro>, before: seq<Node>,
                   fired: seq<TimerEvent>, after: seq<Node>, v: View, now: int)
    requires Owned(owners, events, Elements(before)) && Booked(owners, events, Elements(before), v.triggered)
    requires Expired(before, fired, after, now) && Settled(v) && Elements(v.run) <= coros && QueuedOnce(v)
    requires FiredAll(v, fired).triggered <= events
    requires forall e :: e in events && e.coro != null ==> e.coro in coros
    ensures
      var w := FiredAll(v, fired);
      && Settled(w) && Booked(owners, events, Elements(after), w.triggered) && Elements(w.run) <= coros
      && w.triggered == v.triggered + DueAt(events, now) && Events(fired) <= events
  {
    FiredMarks(v, fired);
    Swept(owners, events, before, fired, after, v.triggered, now);
    forall e | e in fired ensures e in Events(fired) {}
    FiredRun(v, fired, coros);
  }

  ghost function DueAt(events: set<TimerEvent>, now: int): set<TimerEvent> {
    set e | e in events && e.node.key <= now
  }

  lemma FiredTriggers(events: set<TimerEvent>, v: View, fired: seq<TimerEvent>, now: int)
    requires Settled(v) && QueuedOnce(v) && Events(fired) <= events
    requires FiredAll(v, fired).triggered == v.triggered + DueAt(events, now)
    ensures Landed(events, fired, v, FiredAll(v, fired), now)
  {
    FiredMarks(v, fired);
    FiredApart(v, fired, null);
    forall e | e in fired ensures e in Events(fired) {}
    forall e | e in fired && e.coro != null
      ensures
        var w := FiredAll(v, fired);
        e.coro in w.timedout && e.coro in w.resched && e.coro in w.run && e.coro !in w.blocked
    {
      FiredLands(v, fired, e);
      assert e.coro in Elements(FiredAll(v, fired).run);
    }
  }

  lemma SweepQueues(v: View, fired: seq<TimerEvent>, running: Coro?, coros: set<Coro>)
    requires QueuedOnce(v) && AtHead(v, running) && Elements(v.blocked) <= coros
    ensures
      var w := FiredAll(v, fired);
      QueuedOnce(w) && AtHead(w, running) && Moved(v, w, fired) && Elements(w.blocked) <= coros
  {
    FiredApart(v, fired, running);
    FiredMoves(v, fired);
    forall c | c in FiredAll(v, fired).blocked ensures c in Elements(v.blocked) {}
  }

  // ---- Taking turns ---------------------------------------------------------------------------

  datatype State = State(v: View, running: Coro?)

  /** What happens to the queues: the scheduler picks who runs next, a new coroutine joins, the one
      that runs blocks, or timers fire. */
  datatype Turn = Pick | Join(c: Coro) | Stop | Expiry(fired: seq<TimerEvent>)

  ghost predicate MayTurn(q: State, t: Turn) {
    match t
    case Join(c) => c !in q.v.run && c !in q.v.blocked && c !in q.v.resched
    case Stop => q.running != null && q.running !in q.v.resched
    case _ => true
  }

  /** The queue with its head behind the others. */
  function Picked(q: State): State {
    var r := Requeued(q.v.run, q.running);
    if r == [] then q else State(q.v.(run := r, resched := q.v.resched - {r[0]}), r[0])
  }

  function Stopped(q: State): State
    requires q.running != null
  {
    State(q.v.(run := Minus(q.v.run, [q.running]), blocked := Minus(q.v.blocked, [q.running]) + [q.running]), null)
  }

  function Turned(q: State, t: Turn): State
    requires t.Stop? ==> q.running != null
  {
    match t
    case Pick => Picked(q)
    case Join(c) => q.(v := q.v.(run := q.v.run + [c]))
    case Stop => Stopped(q)
    case Expiry(fired) => q.(v := FiredAll(q.v, fired))
  }

  ghost predicate WellQueued(q: State) { QueuedOnce(q.v) && AtHead(q.v, q.running) }

  /** The last to run goes behind the others if it still heads them, and the head runs. */
  lemma PickIs(q: State)
    requires WellQueued(q)
    ensures
      var w := Picked(q);
      && WellQueued(w) && w.v.blocked == q.v.blocked
      && (q.v.run == [] ==> w == q)
      && (q.v.run != [] ==>
            && w.v.run == (if q.running == q.v.run[0] then q.v.run[1..] + [q.v.run[0]] else q.v.run)
            && w.running == w.v.run[0] && w.v.resched == q.v.resched - {w.running})
  {
    var s, r := q.v.run, Requeued(q.v.run, q.running);
    if s != [] && q.running == s[0] {
      assert s == [s[0]] + s[1..] && s[0] !in s[1..];
      assert NoTwice(r) && Elements(r) == Elements(s);
    }
  }

  /** Blocking takes the coroutine that runs off the run queue, and nobody else. */
  lemma StopIs(q: State)
    requires WellQueued(q) && q.running != null && q.running !in q.v.resched
    ensures
      var w := Stopped(q);
      && WellQueued(w) && w.running == null && w.v.run == q.v.run[1..]
      && q.running == q.v.run[0] && q.running !in w.v.run && w.v.blocked == q.v.blocked + [q.running]
  {
    var s, c: Coro := q.v.run, q.running;
    assert s == [c] + s[1..] && c !in s[1..] && c in Elements(s);
    MinusOut(s[1..], c);
    assert c !in Elements(q.v.blocked);
    MinusOut(q.v.blocked, c);
    Appended(q.v.blocked, c);
    assert forall x :: x in s[1..] ==> x in Elements(s);
  }

  lemma {:induction false} MinusOut(s: seq<Coro>, c: Coro)
    requires c !in s
    ensures Minus(s, [c]) == s
  {
    if s == [] {
    } else {
      MinusOut(s[1..], c);
    }
  }

  lemma TurnKeeps(q: State, t: Turn)
    requires WellQueued(q) && MayTurn(q, t)
    ensures WellQueued(Turned(q, t))
  {
    match t
    case Pick => PickIs(q);
    case Join(c) => Appended(q.v.run, c);
    case Stop => StopIs(q);
    case Expiry(fired) => FiredApart(q.v, fired, q.running);
  }

  lemma JoinKeeps(q: State, coros: set<Coro>, c: Coro)
    requires WellQueued(q) && Settled(q.v) && c !in coros
    requires Elements(q.v.run) <= coros && Elements(q.v.blocked) <= coros
    ensures
      var w := Turned(q, Join(c));
      && MayTurn(q, Join(c)) && WellQueued(w) && Settled(w.v)
      && Elements(w.v.run) <= coros + {c} && Elements(w.v.blocked) <= coros + {c}
  {
    assert c !in Elements(q.v.run) && c !in Elements(q.v.blocked);
    Appended(q.v.run, c);
    SettledMore(q.v, c);
  }

  /** The picks until `c` runs, if no timer sends it to the end before. */
  function Distance(q: State, c: Coro): nat
    requires c in q.v.run
  {
    IndexOf(q.v.run, c) + if q.running == q.v.run[0] then 0 else 1
  }

  /** Somebody else's going to the end brings `c` no further from its turn. */
  lemma {:induction false} IndexWithout(s: seq<Coro>, gone: Coro, c: Coro)
    requires c in s && c != gone
    ensures c in Minus(s, [gone]) && IndexOf(Minus(s, [gone]), c) <= IndexOf(s, c)
    ensures s[0] == gone ==> IndexOf(Minus(s, [gone]), c) < IndexOf(s, c)
  {
    if s[0] == c {
    } else {
      IndexShifts(s, c);
      IndexWithout(s[1..], gone, c);
      if s[0] != gone { IndexShifts(Minus(s, [gone]), c); }
    }
  }

  /** A coroutine that is woken goes to the end; the others come no further from their turns. */
  lemma WokenDistance(q: State, w: Coro, c: Coro)
    requires WellQueued(q) && c in q.v.run
    ensures
      var q' := q.(v := Woken(q.v, w));
      && c in q'.v.run && (c in q'.v.resched <==> c in q.v.resched || c == w)
      && (c != w || c in q.v.resched ==> Distance(q', c) <= Distance(q, c))
  {
    if w !in q.v.resched && c != w {
      IndexWithout(q.v.run, w, c);
      IndexBehind(Minus(q.v.run, [w]), [w], c);
    }
  }

  /** Of timers fired, only its own sends a waiting coroutine to the end, and only once. */
  lemma {:induction false} FiredDistance(q: State, s: seq<TimerEvent>, c: Coro)
    requires WellQueued(q) && c in q.v.run
    ensures
      var q' := q.(v := FiredAll(q.v, s));
      && c in q'.v.run && Distance(q', c) <= |q'.v.run|
      && (c in q'.v.resched <==> c in q.v.resched || c in Coros(s))
      && (c in q.v.resched || c !in Coros(s) ==> Distance(q', c) <= Distance(q, c))
    decreases |s|
  {
    if s == [] {
    } else {
      EventsSplit(s);
      var v := q.v.(triggered := q.v.triggered + {s[0]});
      if s[0].coro == null {
        FiredDistance(q.(v := v), s[1..], c);
      } else {
        var w := v.(timedout := v.timedout + {s[0].coro});
        WokenApart(w, s[0].coro);
        WokenAtHead(w, q.running, s[0].coro);
        WokenDistance(q.(v := w), s[0].coro, c);
        FiredDistance(q.(v := Woken(w, s[0].coro)), s[1..], c);
      }
    }
  }

  /** The most picks until `c` runs, when no more than `n` coroutines ever wait: its distance, and
      the whole queue once more if a timer can still send it to the end. */
  function Patience(q: State, c: Coro, n: nat): nat
    requires c in q.v.run
  {
    Distance(q, c) + if c in q.v.resched then 0 else n
  }

  lemma PickPatience(q: State, c: Coro, n: nat)
    requires WellQueued(q) && c in q.v.run && Distance(q, c) > 0
    ensures
      var w := Picked(q);
      c in w.v.run && (w.running == c || Patience(w, c, n) < Patience(q, c, n))
  {
    PickIs(q);
    var s, w := q.v.run, Picked(q);
    if q.running == s[0] {
      IndexShifts(s, c);
      IndexBehind(s[1..], [s[0]], c);
    }
    if w.running != c { assert IndexOf(w.v.run, c) > 0; }
  }

  lemma TurnPatience(q: State, t: Turn, c: Coro, n: nat)
    requires WellQueued(q) && MayTurn(q, t) && !t.Pick? && c in q.v.run && Distance(q, c) > 0
    requires |Turned(q, t).v.run| <= n
    ensures c in Turned(q, t).v.run && Patience(Turned(q, t), c, n) <= Patience(q, c, n)
  {
    match t
    case Join(x) => IndexBehind(q.v.run, [x], c);
    case Stop =>
      StopIs(q);
      IndexShifts(q.v.run, c);
    case Expiry(fired) => FiredDistance(q, fired, c);
  }

  ghost predicate LegalTurns(q: State, run: seq<Turn>)
    decreases |run|
  {
    run == [] || (MayTurn(q, run[0]) && LegalTurns(Turned(q, run[0]), run[1..]))
  }

  ghost function AfterTurns(q: State, run: seq<Turn>): State
    requires LegalTurns(q, run)
    decreases |run|
  {
    if run == [] then q else AfterTurns(Turned(q, run[0]), run[1..])
  }

  function Picks(run: seq<Turn>): nat {
    if run == [] then 0 else (if run[0].Pick? then 1 else 0) + Picks(run[1..])
  }

  /** The turns `turns` lead from `q` to `w`. */
  ghost predicate Took(q: State, turns: seq<Turn>, w: State) {
    LegalTurns(q, turns) && AfterTurns(q, turns) == w
  }

  lemma TookOne(q: State, t: Turn)
    requires MayTurn(q, t)
    ensures Took(q, [t], Turned(q, t))
  {
    assert [t][1..] == [];
  }

  lemma {:induction false} TookBoth(q: State, a: seq<Turn>, w: State, b: seq<Turn>, x: State)
    requires Took(q, a, w) && Took(w, b, x)
    ensures Took(q, a + b, x)
    decreases |a|
  {
    if a == [] {
      assert a + b == b;
    } else {
      assert (a + b)[1..] == a[1..] + b;
      TookBoth(Turned(q, a[0]), a[1..], w, b, x);
    }
  }

  /** Bounded waiting: a coroutine on the run queue is picked after at most as many picks as its
      patience, whatever starts, blocks and expiries come between. */
  lemma {:induction false} RunsWithin(q: State, run: seq<Turn>, c: Coro, n: nat) returns (k: nat)
    requires WellQueued(q) && LegalTurns(q, run) && c in q.v.run && Picks(run) >= Patience(q, c, n)
    requires forall j :: 0 <= j <= |run| ==> LegalTurns(q, run[..j]) && |AfterTurns(q, run[..j]).v.run| <= n
    ensures k <= |run| && LegalTurns(q, run[..k]) && AfterTurns(q, run[..k]).running == c
    decreases |run|
  {
    if Distance(q, c) == 0 {
      k := 0;
      assert run[..0] == [];
    } else {
      var w := Turned(q, run[0]);
      TurnKeeps(q, run[0]);
      assert run[..1][1..] == [] && LegalTurns(q, run[..1]) && AfterTurns(q, run[..1]) == w;
      forall j | 0 <= j < |run| ensures LegalTurns(w, run[1..][..j]) && |AfterTurns(w, run[1..][..j]).v.run| <= n {
        assert run[..j + 1][1..] == run[1..][..j] && LegalTurns(q, run[..j + 1]);
      }
      if run[0].Pick? { PickPatience(q, c, n); } else { TurnPatience(q, run[0], c, n); }
      if run[0].Pick? && w.running == c {
        k := 1;
      } else {
        k := RunsWithin(w, run[1..], c, n);
        k := k + 1;
        assert run[..k][1..] == run[1..][..k - 1];
      }
    }
  }

  /** So is a coroutine that a timer wakes, after at most as many picks as coroutines ever wait. */
  lemma TimerWakes(q: State, fired: seq<TimerEvent>, run: seq<Turn>, e: TimerEvent, n: nat) returns (k: nat)
    requires WellQueued(q) && e in fired && e.coro != null && (e.coro in q.v.run || e.coro in q.v.blocked)
    requires Settled(q.v) && LegalTurns(Turned(q, Expiry(fired)), run) && Picks(run) >= n
    requires forall j :: 0 <= j <= |run| ==>
      LegalTurns(Turned(q, Expiry(fired)), run[..j]) && |AfterTurns(Turned(q, Expiry(fired)), run[..j]).v.run| <= n
    ensures k <= |run| && LegalTurns(Turned(q, Expiry(fired)), run[..k])
    ensures AfterTurns(Turned(q, Expiry(fired)), run[..k]).running == e.coro
  {
    var w, c: Coro := Turned(q, Expiry(fired)), e.coro;
    TurnKeeps(q, Expiry(fired));
    FiredLands(q.v, fired, e);
    assert run[..0] == [] && |w.v.run| <= n;
    k := RunsWithin(w, run, c, n);
  }

  // ---- The carrier, as an object ----------------------------------------------------------------

  class Carrier {
    const timers: RbTree
    var owners: map<Node, TimerEvent> // which timer a tree node is embedded in
    ghost var events: set<TimerEvent> // every timer ever armed
    ghost var coros: set<Coro>        // every coroutine ever started
    var running: Coro?
    var coroQueue: seq<Coro>
    var blockingQueue: seq<Coro>

    ghost function TheView(): View
      reads `coroQueue, `blockingQueue, `events, `coros, events, coros
    {
      View(coroQueue, blockingQueue,
           set c | c in coros && c.resched, set c | c in coros && c.timedout, set e | e in events && e.triggered)
    }

    /** The timers on the tree are this carrier's. */
    ghost predicate Armed()
      reads `owners, `events, `coros, timers, timers.sentinel, Nodes(timers.tree)
    {
      && timers.Valid() && timers.keyCompare == TimerCompare
      && Owned(owners, events, Nodes(timers.tree))
      && (forall e :: e in events && e.coro != null ==> e.coro in coros)
    }

    ghost predicate Valid()
      reads this, timers, timers.sentinel, Nodes(timers.tree), events, coros
    {
      && Armed() && Settled(TheView()) && Booked(owners, events, Nodes(timers.tree), TheView().triggered)
      && Elements(coroQueue) <= coros && Elements(blockingQueue) <= coros
      && QueuedOnce(TheView()) && AtHead(TheView(), running)
    }

    /** The queues and who runs. */
    ghost function Now(): State
      reads `coroQueue, `blockingQueue, `events, `coros, `running, events, coros
    {
      State(TheView(), running)
    }

    constructor ()
      ensures Valid() && timers.tree == Leaf && coroQueue == [] && blockingQueue == []
      ensures events == {} && coros == {} && running == null && fresh(timers) && fresh(timers.sentinel)
    {
      owners, events, coros, running, coroQueue, blockingQueue := map[], {}, {}, null, [], [];
      TimerCompareThreeWay();
      timers := new RbTree(TimerCompare);
    }

    /** The local half of `coro_create_request`: a new coroutine joins the run queue. */
    method StartCoro() returns (c: Coro)
      requires Valid()
      modifies `coroQueue, `coros
      ensures Valid() && fresh(c) && coros == old(coros) + {c} && MayTurn(old(Now()), Join(c))
      ensures TheView() == old(TheView()).(run := old(coroQueue) + [c]) && running == old(running)
    {
      c := new Coro();
      JoinKeeps(Now(), coros, c);
      EnterCoro(c);
    }

    method EnterCoro(c: Coro)
      requires c !in coros && !c.resched && !c.timedout
      modifies `coroQueue, `coros
      ensures coros == old(coros) + {c}
      ensures TheView() == old(TheView()).(run := old(coroQueue) + [c])
    {
      coros := coros + {c};
      coroQueue := coroQueue + [c];
    }

    /** The end of a round of `sched_loop`: the last coroutine to run goes to the end if it is
        still the head, and the head runs. */
    method Dispatch()
      requires Valid()
      modifies `coroQueue, `running, coros`resched
      ensures Valid() && coroQueue == Requeued(old(coroQueue), old(running)) && Now() == Turned(old(Now()), Pick)
      ensures old(coroQueue) == [] ==> coroQueue == [] && running == old(running)
      ensures old(coroQueue) != [] ==>
                coroQueue == if old(running) == old(coroQueue)[0] then old(coroQueue)[1..] + [old(running)]
                             else old(coroQueue)
      ensures old(coroQueue) != [] ==> coroQueue != [] && running == coroQueue[0] && !running.resched
      ensures
        var asleep := if coroQueue == [] then {} else {running};
        TheView() == old(TheView()).(run := coroQueue, resched := old(TheView().resched) - asleep)
    {
      PickIs(Now());
      RequeuedSame(coroQueue, running);
      RequeuedSettled(TheView(), running);
      if coroQueue != [] {
        Rotate();
        assert coroQueue[0] in Elements(coroQueue);
        Run(coroQueue[0]);
      }
    }

    method Rotate()
      requires coroQueue != []
      modifies `coroQueue
      ensures coroQueue == Requeued(old(coroQueue), running) && TheView() == old(TheView()).(run := coroQueue)
    {
      if running != null && running == coroQueue[0] {
        coroQueue := coroQueue[1..] + [coroQueue[0]];
      }
    }

    method Run(c: Coro)
      modifies `running, c`resched
      ensures running == c && TheView() == old(TheView()).(resched := old(TheView().resched) - {c})
    {
      running := c;
      c.resched := false;
    }

    /** `p7_blocking_point`, of a coroutine that has not been rescheduled since it was dispatched. */
    method BlockRunning()
      requires Valid() && running != null && !running.resched
      modifies `coroQueue, `blockingQueue, `running
      ensures Valid() && running == null && Now() == Turned(old(Now()), Stop)
      ensures coroQueue == old(coroQueue)[1..] && old(running) !in coroQueue
      ensures blockingQueue == old(blockingQueue) + [old(running)]
      ensures TheView() == old(TheView()).(run := Minus(old(coroQueue), [old(running)]),
                                           blocked := Minus(old(blockingQueue), [old(running)]) + [old(running)])
    {
      StopIs(Now());
      SettledWithout(TheView(), running);
      MinusWithin(coroQueue, running);
      Unqueue(running);
    }

    method Unqueue(coro: Coro)
      requires running == coro && running in coroQueue
      modifies `coroQueue, `blockingQueue, `running
      ensures running == null && Now() == Stopped(old(Now()))
    {
      coroQueue := Minus(coroQueue, [coro]);
      blockingQueue := Minus(blockingQueue, [coro]) + [coro];
      running := null;
    }

    /** `p7_timed_event`, and `p7_timed_event_assoc` for the coroutine that runs. */
    method TimedEvent(tval: int, assoc: bool) returns (e: TimerEvent)
      requires Valid()
      modifies `owners, `events, timers, timers.sentinel, Nodes(timers.tree)
      ensures Valid() && fresh(e) && e.node.key == tval && !e.triggered
      ensures e.coro == if assoc then running else null
      ensures events == old(events) + {e} && TheView() == old(TheView())
      ensures Inorder(timers.tree) == Inserted(TimerCompare, old(Inorder(timers.tree)), e.node)
      ensures fresh(e.node) && Nodes(timers.tree) == old(Nodes(timers.tree)) + {e.node}
    {
      e := NewTimer(tval, assoc);
      AddEvent(e);
    }

    method NewTimer(tval: int, assoc: bool) returns (e: TimerEvent)
      requires Owned(owners, events, Nodes(timers.tree))
      ensures fresh(e) && fresh(e.node) && e.node.key == tval && !e.triggered
      ensures e.coro == if assoc then running else null
      ensures e !in events && e.node !in owners && e.node !in Nodes(timers.tree) && e.node != timers.sentinel
    {
      e := new TimerEvent(tval, if assoc then running else null);
    }

    /** `timer_add_event`, for a timer that is on no tree. */
    method AddEvent(e: TimerEvent)
      requires Valid() && e !in events && !e.triggered && (e.coro != null ==> e.coro in coros)
      requires e.node !in owners && e.node !in Nodes(timers.tree) && e.node != timers.sentinel
      modifies `owners, `events, timers, timers.sentinel, Nodes(timers.tree), e.node
      ensures Valid() && events == old(events) + {e} && TheView() == old(TheView())
      ensures Inorder(timers.tree) == Inserted(TimerCompare, old(Inorder(timers.tree)), e.node)
      ensures Nodes(timers.tree) == old(Nodes(timers.tree)) + {e.node}
    {
      OneMoreTimer(owners, events, Nodes(timers.tree), TheView().triggered, e);
      Register(e);
      Plant(e);
    }

    method Plant(e: TimerEvent)
      requires timers.Valid() && e.node !in Nodes(timers.tree) && e.node != timers.sentinel
      modifies timers, timers.sentinel, Nodes(timers.tree), e.node
      ensures timers.Valid() && TheView() == old(TheView())
      ensures Inorder(timers.tree) == Inserted(timers.keyCompare, old(Inorder(timers.tree)), e.node)
      ensures Nodes(timers.tree) == old(Nodes(timers.tree)) + {e.node}
    {
      timers.Insert(e.node);
    }

    method Register(e: TimerEvent)
      requires !e.triggered
      modifies `owners, `events
      ensures owners == old(owners)[e.node := e] && events == old(events) + {e} && TheView() == old(TheView())
    {
      owners := owners[e.node := e];
      events := events + {e};
    }

    method PeekEarliest() returns (e: TimerEvent?)
      requires Armed()
      ensures e == null <==> Inorder(timers.tree) == []
      ensures e != null ==> e.node == Inorder(timers.tree)[0] && e in events && (e.coro != null ==> e.coro in coros)
    {
      var node := timers.Min();
      InorderNodes(timers.tree);
      if node != timers.sentinel { e := owners[node]; } else { e := null; }
    }

    /** What the loop does with an expired timer after taking it off the tree. */
    method Fire(e: TimerEvent)
      requires e in events && (e.coro != null ==> e.coro in coros)
      modifies `coroQueue, `blockingQueue, events, coros
      ensures TheView() == Fired(old(TheView()), e)
    {
      if e.coro != null {
        var coro: Coro := e.coro;
        coro.timedout := true;
        if !coro.resched {
          blockingQueue := Minus(blockingQueue, [coro]);
          coroQueue := Minus(coroQueue, [coro]);
          coroQueue := coroQueue + [coro];
          coro.resched := true;
        }
      }
      e.triggered := true;
    }

    method FireArmed(e: TimerEvent)
      requires Armed() && e in events
      modifies `coroQueue, `blockingQueue, events, coros
      ensures Armed() && TheView() == Fired(old(TheView()), e)
    {
      Fire(e);
    }

    /** Takes the earliest timer off the tree. */
    method TakeOff(e: TimerEvent)
      requires Armed() && Inorder(timers.tree) != [] && e.node == Inorder(timers.tree)[0]
      modifies timers, timers.sentinel, Nodes(timers.tree)
      ensures Armed() && Inorder(timers.tree) == old(Inorder(timers.tree))[1..]
      ensures Nodes(timers.tree) <= old(Nodes(timers.tree)) && TheView() == old(TheView())
    {
      ghost var s := Inorder(timers.tree);
      InorderNodes(timers.tree);
      assert e.node in Elements(s);
      InorderDistinct(Snap(Nodes(timers.tree) + {timers.sentinel}), timers.sentinel, timers.tree);
      HeadRemoved(s);
      timers.Delete(e.node);
    }

    method Expire(e: TimerEvent)
      requires Armed() && Inorder(timers.tree) != [] && e.node == Inorder(timers.tree)[0]
      requires e in events && (e.coro != null ==> e.coro in coros)
      modifies `coroQueue, `blockingQueue, timers, timers.sentinel, Nodes(timers.tree), events, coros
      ensures Armed() && Inorder(timers.tree) == old(Inorder(timers.tree))[1..]
      ensures Nodes(timers.tree) <= old(Nodes(timers.tree))
      ensures TheView() == Fired(old(TheView()), e)
    {
      TakeOff(e);
      FireArmed(e);
    }

    /** `e` is the earliest timer, if there is one. */
    ghost predicate Earliest(e: TimerEvent?)
      reads `events, `coros, timers
    {
      && (e == null <==> Inorder(timers.tree) == [])
      && (e != null ==> e.node == Inorder(timers.tree)[0] && e in events && (e.coro != null ==> e.coro in coros))
    }

    method ExpireAndPeek(e: TimerEvent) returns (next: TimerEvent?)
      requires Armed() && Earliest(e)
      modifies `coroQueue, `blockingQueue, timers, timers.sentinel, Nodes(timers.tree), events, coros
      ensures Armed() && Earliest(next) && Inorder(timers.tree) == old(Inorder(timers.tree))[1..]
      ensures Nodes(timers.tree) <= old(Nodes(timers.tree))
      ensures TheView() == Fired(old(TheView()), e)
    {
      Expire(e);
      next := PeekEarliest();
    }

    /** Firing the timers `fired`, all due at `now`, has led from `before` and `v` to here. */
    ghost predicate Came(before: seq<Node>, v: View, fired: seq<TimerEvent>, now: int)
      reads `coroQueue, `blockingQueue, `events, `coros, events, coros, timers
    {
      DueSoFar(before, fired, Inorder(timers.tree), now) && TheView() == FiredAll(v, fired)
    }

    method Advance(e: TimerEvent, now: int, ghost before: seq<Node>, ghost v: View, ghost fired: seq<TimerEvent>)
      returns (next: TimerEvent?)
      requires Armed() && Earliest(e) && e.node.key <= now && Came(before, v, fired, now)
      modifies `coroQueue, `blockingQueue, timers, timers.sentinel, Nodes(timers.tree), events, coros
      ensures Armed() && Earliest(next) && Came(before, v, fired + [e], now)
      ensures Nodes(timers.tree) <= old(Nodes(timers.tree))
    {
      FiredMore(v, fired, e);
      OneMoreFired(before, fired, e, Inorder(timers.tree), now);
      next := ExpireAndPeek(e);
    }

    /** The expiry loop of `sched_loop`, with hooks that leave timers and queues alone. */
    method ExpireLoop(now: int) returns (fired: seq<TimerEvent>)
      requires Armed()
      modifies `coroQueue, `blockingQueue, timers, timers.sentinel, Nodes(timers.tree), events, coros
      ensures Armed() && Nodes(timers.tree) <= old(Nodes(timers.tree))
      ensures Came(old(Inorder(timers.tree)), old(TheView()), fired, now)
      ensures Inorder(timers.tree) != [] ==> Inorder(timers.tree)[0].key > now
    {
      fired := [];
      ghost var before, v := Inorder(timers.tree), TheView();
      NoneFired(before, v, now);
      var e := PeekEarliest();
      while e != null && e.node.key <= now
        invariant Armed() && Earliest(e) && Came(before, v, fired, now)
        invariant Nodes(timers.tree) <= old(Nodes(timers.tree)) && events == old(events) && coros == old(coros)
        decreases |before| - |fired|
      {
        var expired: TimerEvent := e;
        e := Advance(expired, now, before, v, fired);
        fired := fired + [expired];
      }
    }

    /** What the loop does to timers, coroutines and queues. */
    method ExpireTimers(now: int) returns (fired: seq<TimerEvent>)
      requires Valid()
      modifies `coroQueue, `blockingQueue, timers, timers.sentinel, Nodes(timers.tree), events, coros
      ensures Valid() && Nodes(timers.tree) <= old(Nodes(timers.tree))
      ensures Expired(old(Inorder(timers.tree)), fired, Inorder(timers.tree), now)
      ensures TheView() == FiredAll(old(TheView()), fired)
      ensures Landed(events, fired, old(TheView()), TheView(), now) && Moved(old(TheView()), TheView(), fired)
    {
      ghost var v := TheView();
      fired := ExpireDue(now);
      FiredMoves(v, fired);
      FiredTriggers(events, v, fired, now);
    }

    /** The same, with what happened to timers and queues as a turn. */
    method ExpireDue(now: int) returns (fired: seq<TimerEvent>)
      requires Valid()
      modifies `coroQueue, `blockingQueue, timers, timers.sentinel, Nodes(timers.tree), events, coros
      ensures Valid() && Nodes(timers.tree) <= old(Nodes(timers.tree))
      ensures Expired(old(Inorder(timers.tree)), fired, Inorder(timers.tree), now)
      ensures TheView() == FiredAll(old(TheView()), fired) && Events(fired) <= events
      ensures TheView().triggered == old(TheView().triggered) + DueAt(events, now)
    {
      InorderNodes(timers.tree);
      ghost var before, v := Inorder(timers.tree), TheView();
      fired := ExpireLoop(now);
      AllDue(before, fired, Inorder(timers.tree), now);
      InorderNodes(timers.tree);
      SweepQueues(v, fired, running, coros);
      SweepLands(owners, events, coros, before, fired, Inorder(timers.tree), v, now);
    }
  }

  // ---- Whole runs of a carrier --------------------------------------------------------------

  /** What coroutines and the scheduler do with a carrier: `Arm` is `p7_timed_event`, or
      `p7_timed_event_assoc` when `assoc`. */
  datatype Command = Start | Dispatch | Block | Arm(tval: int, assoc: bool) | Expire(now: int)

  /** Command `i` arms a timer, and a later one expires timers at or after its time. */
  predicate Due(trace: seq<Command>, i: nat)
    requires i < |trace|
  {
    trace[i].Arm? && exists j :: i < j < |trace| && Passes(trace[j], trace[i].tval)
  }

  predicate Passes(command: Command, tval: int) {
    command.Expire? && tval <= command.now
  }

  lemma DueLater(trace: seq<Command>, n: nat, i: nat)
    requires i < n < |trace| && trace[i].Arm?
    ensures Due(trace[..n + 1], i) <==> Due(trace[..n], i) || Passes(trace[n], trace[i].tval)
  {
    var s, t := trace[..n], trace[..n + 1];
    if Due(s, i) {
      var j :| i < j < |s| && Passes(s[j], s[i].tval);
      assert Passes(t[j], t[i].tval);
    }
    if Passes(trace[n], trace[i].tval) { assert Passes(t[n], t[i].tval); }
    if Due(t, i) {
      var j :| i < j < |t| && Passes(t[j], t[i].tval);
      assert j < n ==> Passes(s[j], s[i].tval);
    }
  }

  /** The timers triggered after a command. */
  ghost function Triggered(events: set<TimerEvent>, triggered: set<TimerEvent>, command: Command): set<TimerEvent> {
    triggered + set e | e in events && Passes(command, e.node.key)
  }

  /** `armed` are the timers that the commands of `trace` armed, by position; they are all of
      `events`, and those due are `triggered`. */
  ghost predicate Timed(trace: seq<Command>, armed: seq<TimerEvent?>, events: set<TimerEvent>,
                        triggered: set<TimerEvent>)
  {
    && |armed| == |trace|
    && (forall i :: 0 <= i < |trace| ==> (armed[i] == null <==> !trace[i].Arm?))
    && (forall i :: 0 <= i < |trace| && armed[i] != null ==> TimedAt(trace, i, armed[i], events, triggered))
    && (forall i, j :: 0 <= i < j < |trace| && armed[i] != null ==> armed[i] != armed[j])
    && (forall e :: e in events ==> e in armed)
  }

  ghost predicate TimedAt(trace: seq<Command>, i: nat, e: TimerEvent, events: set<TimerEvent>,
                          triggered: set<TimerEvent>)
    requires i < |trace| && trace[i].Arm?
  {
    e in events && e.node.key == trace[i].tval && (e in triggered <==> Due(trace, i))
  }

  const START := State(View([], [], {}, {}, {}), null)

  /** `c` is what the commands of `trace` make of a new carrier; its queues took the `turns`. */
  ghost predicate Ran(c: Carrier, trace: seq<Command>, armed: seq<TimerEvent?>, turns: seq<Turn>)
    reads c, c.timers, c.timers.sentinel, Nodes(c.timers.tree), c.events, c.coros
  {
    c.Valid() && Timed(trace, armed, c.events, c.TheView().triggered) && Took(START, turns, c.Now())
  }

  lemma TimedMore(trace: seq<Command>, n: nat, armed: seq<TimerEvent?>, events: set<TimerEvent>,
                  triggered: set<TimerEvent>, e: TimerEvent?)
    requires n < |trace| && Timed(trace[..n], armed, events, triggered) && triggered <= events
    requires e == null <==> !trace[n].Arm?
    requires e != null ==> e !in events && e.node.key == trace[n].tval
    ensures Timed(trace[..n + 1], armed + [e], events + (if e == null then {} else {e}),
                  Triggered(events, triggered, trace[n]))
  {
    var s, t := trace[..n], trace[..n + 1];
    var events', triggered' := events + (if e == null then {} else {e}), Triggered(events, triggered, trace[n]);
    forall i | 0 <= i < |t| && (armed + [e])[i] != null
      ensures t[i].Arm? && TimedAt(t, i, (armed + [e])[i], events', triggered')
    {
      if i < n {
        assert TimedAt(s, i, armed[i], events, triggered);
        DueLater(trace, n, i);
      }
    }
    forall i, j | 0 <= i < j < |t| && (armed + [e])[i] != null ensures (armed + [e])[i] != (armed + [e])[j] {
      assert TimedAt(s, i, armed[i], events, triggered);
    }
    forall x | x in events' ensures x in armed + [e] {
      if x in events { assert x in armed; }
    }
  }

  /** One command; a `Block` that the state rules out does nothing. */
  method Perform(c: Carrier, command: Command) returns (e: TimerEvent?, ghost turns: seq<Turn>)
    requires c.Valid()
    modifies c, c.timers, c.timers.sentinel, Nodes(c.timers.tree), c.events, c.coros
    ensures c.Valid() && fresh(Nodes(c.timers.tree) - old(Nodes(c.timers.tree)))
    ensures e == null <==> !command.Arm?
    ensures fresh(c.coros - old(c.coros)) && (e != null ==> fresh(e) && e.node.key == command.tval)
    ensures c.events == old(c.events) + if e == null then {} else {e}
    ensures c.TheView().triggered == Triggered(old(c.events), old(c.TheView().triggered), command)
    ensures Took(old(c.Now()), turns, c.Now()) && (command.Dispatch? ==> turns == [Pick])
  {
    if command.Arm? {
      e := c.TimedEvent(command.tval, command.assoc);
      turns := [];
    } else {
      e := null;
      if command.Expire? {
        turns := PerformExpire(c, command);
      } else {
        turns := PerformCoro(c, command);
      }
    }
  }

  lemma DueTriggered(events: set<TimerEvent>, triggered: set<TimerEvent>, command: Command)
    requires command.Expire?
    ensures Triggered(events, triggered, command) == triggered + DueAt(events, command.now)
  {}

  method PerformExpire(c: Carrier, command: Command) returns (ghost turns: seq<Turn>)
    requires c.Valid() && command.Expire?
    modifies c, c.timers, c.timers.sentinel, Nodes(c.timers.tree), c.events, c.coros
    ensures c.Valid() && Nodes(c.timers.tree) <= old(Nodes(c.timers.tree))
    ensures c.coros == old(c.coros) && c.events == old(c.events)
    ensures c.TheView().triggered == Triggered(c.events, old(c.TheView().triggered), command)
    ensures Took(old(c.Now()), turns, c.Now())
  {
    ghost var q := c.Now();
    DueTriggered(c.events, q.v.triggered, command);
    var fired := c.ExpireDue(command.now);
    turns := [Expiry(fired)];
    TookOne(q, Expiry(fired));
  }

  method PerformCoro(c: Carrier, command: Command) returns (ghost turns: seq<Turn>)
    requires c.Valid() && !command.Arm? && !command.Expire?
    modifies c, c.coros
    ensures c.Valid() && fresh(c.coros - old(c.coros))
    ensures c.events == old(c.events) && c.TheView().triggered == old(c.TheView().triggered)
    ensures Took(old(c.Now()), turns, c.Now()) && (command.Dispatch? ==> turns == [Pick])
  {
    if command.Start? {
      turns := PerformStart(c);
    } else if command.Dispatch? {
      TookOne(c.Now(), Pick);
      c.Dispatch();
      turns := [Pick];
    } else {
      turns := PerformBlock(c);
    }
  }

  method PerformStart(c: Carrier) returns (ghost turns: seq<Turn>)
    requires c.Valid()
    modifies c
    ensures c.Valid() && fresh(c.coros - old(c.coros))
    ensures c.events == old(c.events) && c.TheView().triggered == old(c.TheView().triggered)
    ensures Took(old(c.Now()), turns, c.Now())
  {
    ghost var q := c.Now();
    var started := c.StartCoro();
    turns := [Join(started)];
    TookOne(q, Join(started));
  }

  method PerformBlock(c: Carrier) returns (ghost turns: seq<Turn>)
    requires c.Valid()
    modifies c
    ensures c.Valid() && c.coros == old(c.coros)
    ensures c.events == old(c.events) && c.TheView().triggered == old(c.TheView().triggered)
    ensures Took(old(c.Now()), turns, c.Now())
  {
    turns := [];
    if c.running != null && !c.running.resched {
      TookOne(c.Now(), Stop);
      c.BlockRunning();
      turns := [Stop];
    }
  }

  /** The timer of command `i` is triggered, or else on the tree. */
  ghost predicate Fate(c: Carrier, trace: seq<Command>, i: nat, e: TimerEvent)
    requires i < |trace|
    reads e, c.timers
  {
    (e.triggered <==> Due(trace, i)) && (e.node in Nodes(c.timers.tree) <==> !Due(trace, i))
  }

  lemma Fates(c: Carrier, trace: seq<Command>, armed: seq<TimerEvent?>, turns: seq<Turn>)
    requires Ran(c, trace, armed, turns)
    ensures forall i :: 0 <= i < |trace| && armed[i] != null ==> Fate(c, trace, i, armed[i])
  {
    forall i | 0 <= i < |trace| && armed[i] != null ensures Fate(c, trace, i, armed[i]) {
      assert TimedAt(trace, i, armed[i], c.events, c.TheView().triggered);
    }
  }

  /** Command `i` of a trace. */
  method PerformNext(c: Carrier, trace: seq<Command>, i: nat, armed: seq<TimerEvent?>, ghost turns: seq<Turn>)
    returns (armed': seq<TimerEvent?>, ghost turns': seq<Turn>)
    requires i < |trace| && Ran(c, trace[..i], armed, turns)
    modifies c, c.timers, c.timers.sentinel, Nodes(c.timers.tree), c.events, c.coros
    ensures Ran(c, trace[..i + 1], armed', turns')
    ensures fresh(Nodes(c.timers.tree) - old(Nodes(c.timers.tree)))
    ensures fresh(c.coros - old(c.coros)) && fresh(c.events - old(c.events))
  {
    ghost var q, events, more := c.Now(), c.events, [];
    var e;
    e, more := Perform(c, trace[i]);
    TimedMore(trace, i, armed, events, q.v.triggered, e);
    TookBoth(START, turns, q, more, c.Now());
    armed', turns' := armed + [e], turns + more;
  }

  method NewCarrier() returns (c: Carrier)
    ensures fresh(c) && fresh(c.timers) && fresh(c.timers.sentinel) && fresh(Nodes(c.timers.tree))
    ensures c.events == {} && c.coros == {} && Ran(c, [], [], [])
  {
    c := new Carrier();
  }

  method RunAll(trace: seq<Command>) returns (c: Carrier, armed: seq<TimerEvent?>, ghost turns: seq<Turn>)
    ensures fresh(c) && Ran(c, trace, armed, turns)
  {
    c := NewCarrier();
    armed, turns := [], [];
    assert trace[..0] == [];
    var i := 0;
    while i < |trace|
      invariant i <= |trace| && Ran(c, trace[..i], armed, turns)
      invariant fresh(c) && fresh(c.timers) && fresh(c.timers.sentinel) && fresh(Nodes(c.timers.tree))
      invariant fresh(c.events) && fresh(c.coros)
    {
      armed, turns := PerformNext(c, trace, i, armed, turns);
      i := i + 1;
    }
    assert trace[..i] == trace;
  }

  /** Whatever the commands, a timer is triggered exactly if an expiry at or after its time came
      after it was armed; until then it is on the tree.  The queues took legal turns, so
      `RunsWithin` and `TimerWakes` speak of them. */
  method Replay(trace: seq<Command>) returns (c: Carrier, armed: seq<TimerEvent?>, ghost turns: seq<Turn>)
    ensures fresh(c) && Ran(c, trace, armed, turns)
    ensures forall i :: 0 <= i < |trace| && armed[i] != null ==> Fate(c, trace, i, armed[i])
  {
    c, armed, turns := RunAll(trace);
    Fates(c, trace, armed, turns);
  }
}
