/** p7r/p7r_cpbuffer.h with its drain and wakeup protocol in p7r/p7r_uthread.c: one carrier
    consumes any number of message boxes, each box has one producer at a time, and one eventfd
    counter wakes the carrier.  One step per access to shared memory, every interleaving. */
module CpBuffer {
  type Message = nat

  const BUSY: bv8 := 2
  /** The largest value of an eventfd counter; a write that would exceed it changes nothing. */
  const EVENTFD_MAX := 0xFFFF_FFFF_FFFF_FFFE

  /** Where the producer of a box stands in `p7r_u2cc_message_post`. */
  datatype Producer =
    | Idle
    | Marked(m: Message)              // busy bit set, index not loaded yet
    | Target(m: Message, i: bv8)      // about to append to buffers[i]
    | Added                           // appended, busy bit still set
    | Cleared                         // busy bit cleared, eventfd not written yet

  /** A `struct p7r_cpbuffer` and its producer.  `posted` and `drained` record history. */
  datatype Box = Box(word: bv8, consuming: bool, buffer0: seq<Message>, buffer1: seq<Message>,
                     producer: Producer, posted: seq<Message>, drained: seq<Message>)

  /** Where the carrier stands in `sched_bus_refresh`. */
  datatype Consumer =
    | Top                             // about to choose the timeout
    | Wait(infinite: bool)            // in epoll_wait
    | Notice                          // about to read the eventfd
    | Look(b: nat)                    // cp_buffer_consume: about to read the index
    | Test(b: nat, i: bv8)            // about to test buffers[i] for emptiness
    | Load(b: nat)                    // about to load the desired index
    | Swap(b: nat, d: bv8)            // about to compare and exchange
    | Select(b: nat)                  // about to read the index that selects the list
    | Drain(b: nat, i: bv8)           // removing messages from buffers[i]

  datatype System = System(boxes: seq<Box>, counter: nat, consumed: bool, carrier: Consumer)

  datatype ProducerStep = Mark(m: Message) | LoadIndex | Append | Unmark | Notify

  datatype CarrierStep =
    | ChooseTimeout(infinite: bool)
    | EpollFails
    | EpollReturns(notified: bool)
    | ReadEvent
    | ReadIndex
    | TestEmpty
    | LoadDesired
    | Exchange
    | SelectList
    | Pop
    | NextBox

  /** A step of the producer of box `k`, or of the carrier. */
  datatype Action = Produce(k: nat, p: ProducerStep) | Carry(c: CarrierStep)

  function Buffer(box: Box, i: bv8): seq<Message> {
    if i == 0 then box.buffer0 else box.buffer1
  }

  function WithBuffer(box: Box, i: bv8, s: seq<Message>): Box {
    if i == 0 then box.(buffer0 := s) else box.(buffer1 := s)
  }

  function ProducerIndex(box: Box): bv8 { box.word & 1 }
  function ConsumerIndex(box: Box): bv8 { 1 - (box.word & 1) }
  function ProducerBuffer(box: Box): seq<Message> { Buffer(box, ProducerIndex(box)) }
  function ConsumerBuffer(box: Box): seq<Message> { Buffer(box, ConsumerIndex(box)) }

  const EMPTY_BOX := Box(0, true, [], [], Idle, [], [])

  function Init(n: nat): System {
    System(seq(n, _ => EMPTY_BOX), 0, true, Top)
  }

  predicate MayProduce(p: Producer, step: ProducerStep) {
    match step
    case Mark(_) => p.Idle?
    case LoadIndex => p.Marked?
    case Append => p.Target?
    case Unmark => p.Added?
    case Notify => p.Cleared?
  }

  /** The carrier is working on a box. */
  predicate At(s: System) {
    !s.carrier.Top? && !s.carrier.Wait? && !s.carrier.Notice? && s.carrier.b < |s.boxes|
  }

  predicate MayCarry(s: System, step: CarrierStep) {
    match step
    case ChooseTimeout(infinite) => s.carrier.Top? && (infinite ==> s.consumed)
    case EpollFails => s.carrier.Wait?
    case EpollReturns(notified) => s.carrier.Wait? && (notified ==> s.counter > 0)
    case ReadEvent => s.carrier.Notice?
    case ReadIndex => At(s) && s.carrier.Look?
    case TestEmpty => At(s) && s.carrier.Test?
    case LoadDesired => At(s) && s.carrier.Load?
    case Exchange => At(s) && s.carrier.Swap?
    case SelectList => At(s) && s.carrier.Select?
    case Pop => At(s) && s.carrier.Drain? && Buffer(s.boxes[s.carrier.b], s.carrier.i) != []
    case NextBox => At(s) && s.carrier.Drain? && Buffer(s.boxes[s.carrier.b], s.carrier.i) == []
  }

  predicate Enabled(s: System, a: Action) {
    match a
    case Produce(k, p) => k < |s.boxes| && MayProduce(s.boxes[k].producer, p)
    case Carry(c) => MayCarry(s, c)
  }

  /** What a producer step does to its box. */
  function Produced(box: Box, step: ProducerStep): Box
    requires MayProduce(box.producer, step)
  {
    match step
    case Mark(m) => box.(word := box.word | BUSY, producer := Marked(m), posted := box.posted + [m])
    case LoadIndex => box.(producer := Target(box.producer.m, box.word & 1))
    case Append =>
      WithBuffer(box, box.producer.i, Buffer(box, box.producer.i) + [box.producer.m]).(producer := Added)
    case Unmark => box.(word := box.word & !BUSY, producer := Cleared)
    case Notify => box.(producer := Idle)
  }

  /** What a carrier step does to the box it works on. */
  function Consumed(box: Box, c: Consumer, step: CarrierStep): Box
    requires step.Exchange? ==> c.Swap?
    requires step.Pop? ==> c.Drain? && Buffer(box, c.i) != []
  {
    match step
    case Exchange =>
      if box.word == c.d then box.(word := 1 - c.d, consuming := true) else box.(consuming := false)
    case Pop =>
      var list := Buffer(box, c.i);
      WithBuffer(box, c.i, list[1..]).(drained := box.drained + [list[0]])
    case _ => box
  }

  /** The start of the work on box `b`, or of the next round. */
  function Begin(b: nat, n: nat): Consumer { if b < n then Look(b) else Top }

  function NextCarrier(s: System, step: CarrierStep): Consumer
    requires MayCarry(s, step)
  {
    var c := s.carrier;
    match step
    case ChooseTimeout(infinite) => Wait(infinite)
    case EpollFails => Top
    case EpollReturns(notified) => if notified then Notice else Begin(0, |s.boxes|)
    case ReadEvent => Begin(0, |s.boxes|)
    case ReadIndex => Test(c.b, ConsumerIndex(s.boxes[c.b]))
    case TestEmpty => if Buffer(s.boxes[c.b], c.i) == [] then Load(c.b) else Select(c.b)
    case LoadDesired => Swap(c.b, s.boxes[c.b].word & 1)
    case Exchange => Select(c.b)
    case SelectList => Drain(c.b, ConsumerIndex(s.boxes[c.b]))
    case Pop => c
    case NextBox => Begin(c.b + 1, |s.boxes|)
  }

  function Apply(s: System, a: Action): System
    requires Enabled(s, a)
  {
    match a
    case Produce(k, p) =>
      s.(boxes := s.boxes[k := Produced(s.boxes[k], p)],
         counter := if p.Notify? && s.counter < EVENTFD_MAX then s.counter + 1 else s.counter)
    case Carry(c) =>
      System(
        if At(s) then s.boxes[s.carrier.b := Consumed(s.boxes[s.carrier.b], s.carrier, c)] else s.boxes,
        if c.ReadEvent? then 0 else s.counter,
        if c.EpollReturns? then true
        else if c.SelectList? then s.consumed && s.boxes[s.carrier.b].consuming
        else s.consumed,
        NextCarrier(s, c))
  }

  // ---- What holds of every box ---------------------------------------------------------

  /** The message a producer has announced and not yet appended. */
  function InFlight(p: Producer): seq<Message> {
    match p
    case Marked(m) => [m]
    case Target(m, _) => [m]
    case _ => []
  }

  /** Nothing is lost, duplicated or reordered. */
  ghost predicate Conserved(box: Box) {
    box.posted == box.drained + ConsumerBuffer(box) + ProducerBuffer(box) + InFlight(box.producer)
  }

  ghost predicate BoxInv(box: Box) {
    && box.word <= 3
    && (box.word & BUSY != 0 <==> box.producer.Marked? || box.producer.Target? || box.producer.Added?)
    && (box.producer.Target? ==> box.producer.i == ProducerIndex(box))
    && Conserved(box)
  }

  /** What the carrier relies on in the box it works on. */
  ghost predicate CarrierInv(box: Box, c: Consumer) {
    match c
    case Test(_, i) => i == ConsumerIndex(box) && ConsumerBuffer(box) == []
    case Swap(_, d) => d == ProducerIndex(box) && ConsumerBuffer(box) == []
    case Select(_) => true
    case Drain(_, i) => i == ConsumerIndex(box)
    case _ => ConsumerBuffer(box) == []
  }

  /** A message left in the box will wake the carrier: the counter is up or about to be. */
  ghost predicate Safe(box: Box, counter: nat) {
    ProducerBuffer(box) == [] || counter > 0 || !box.producer.Idle?
  }

  /** The boxes the carrier need not look at again before it may sleep. */
  ghost predicate Covered(s: System, k: nat)
    requires k < |s.boxes|
  {
    s.consumed &&
    match s.carrier
    case Top => true
    case Wait(_) => true
    case Notice => false
    case Select(b) => k < b || (k == b && s.boxes[k].consuming)
    case Drain(b, _) => k <= b
    case c => k < c.b
  }

  ghost predicate InvAt(s: System, k: nat)
    requires k < |s.boxes|
  {
    && BoxInv(s.boxes[k])
    && (if At(s) && s.carrier.b == k then CarrierInv(s.boxes[k], s.carrier) else ConsumerBuffer(s.boxes[k]) == [])
    && (Covered(s, k) ==> Safe(s.boxes[k], s.counter))
  }

  ghost predicate Inv(s: System) {
    && (s.carrier.Top? || s.carrier.Wait? || s.carrier.Notice? || At(s))
    && (s.carrier.Wait? && s.carrier.infinite ==> s.consumed)
    && forall k :: 0 <= k < |s.boxes| ==> InvAt(s, k)
  }

  lemma InitInv(n: nat)
    ensures Inv(Init(n))
  {
    forall k | 0 <= k < n ensures InvAt(Init(n), k) {
      assert Init(n).boxes[k] == EMPTY_BOX;
    }
  }

  /** A producer step keeps its box sound and leaves the carrier's side alone. */
  lemma ProducedInv(box: Box, step: ProducerStep)
    requires BoxInv(box) && MayProduce(box.producer, step)
    ensures BoxInv(Produced(box, step))
    ensures ProducerIndex(Produced(box, step)) == ProducerIndex(box)
    ensures ConsumerBuffer(Produced(box, step)) == ConsumerBuffer(box)
  {
  }

  /** A successful exchange hands the producer's list to the carrier and gives the producer
      an empty one; it succeeds exactly when the producer is not busy. */
  lemma Exchanged(box: Box, c: Consumer)
    requires BoxInv(box) && c.Swap? && CarrierInv(box, c)
    ensures
      var box' := Consumed(box, c, Exchange);
      && BoxInv(box')
      && (box'.consuming <==> box.word & BUSY == 0)
      && (box'.consuming ==> ProducerBuffer(box') == [] && ConsumerBuffer(box') == ProducerBuffer(box))
      && (!box'.consuming ==> box' == box.(consuming := false))
  {
  }

  lemma MoveHead(done: seq<Message>, list: seq<Message>, rest: seq<Message>, last: seq<Message>)
    requires list != []
    ensures done + list + rest + last == (done + [list[0]]) + list[1..] + rest + last
  {
    assert list == [list[0]] + list[1..];
    assert done + list == (done + [list[0]]) + list[1..];
  }

  /** Removing a message leaves the producer's side alone. */
  lemma Popped(box: Box, c: Consumer)
    requires BoxInv(box) && c.Drain? && CarrierInv(box, c) && Buffer(box, c.i) != []
    ensures
      var box' := Consumed(box, c, Pop);
      && BoxInv(box')
      && ConsumerIndex(box') == ConsumerIndex(box)
      && ProducerBuffer(box') == ProducerBuffer(box)
      && box'.producer == box.producer
  {
    MoveHead(box.drained, Buffer(box, c.i), ProducerBuffer(box), InFlight(box.producer));
  }

  lemma ProduceAt(s: System, a: Action, k: nat)
    requires Inv(s) && Enabled(s, a) && a.Produce? && k < |s.boxes|
    ensures InvAt(Apply(s, a), k)
  {
    assert InvAt(s, k);
    if k == a.k { ProducedInv(s.boxes[k], a.p); }
  }

  /** The boxes the carrier is not working on. */
  lemma CarryElsewhere(s: System, step: CarrierStep, k: nat)
    requires Inv(s) && MayCarry(s, step) && k < |s.boxes| && !(At(s) && s.carrier.b == k)
    ensures InvAt(Apply(s, Carry(step)), k)
  {
    assert InvAt(s, k);
  }

  /** The box the carrier is working on. */
  lemma CarryHere(s: System, step: CarrierStep)
    requires Inv(s) && MayCarry(s, step) && At(s)
    ensures InvAt(Apply(s, Carry(step)), s.carrier.b)
  {
    var box := s.boxes[s.carrier.b];
    assert InvAt(s, s.carrier.b);
    match step
    case Exchange => Exchanged(box, s.carrier);
    case Pop => Popped(box, s.carrier);
    case _ => assert Consumed(box, s.carrier, step) == box;
  }

  /** Every step of every producer and of the carrier keeps the invariant. */
  lemma StepInv(s: System, a: Action)
    requires Inv(s) && Enabled(s, a)
    ensures Inv(Apply(s, a))
  {
    var s' := Apply(s, a);
    forall k | 0 <= k < |s'.boxes| ensures InvAt(s', k) {
      if a.Produce? {
        ProduceAt(s, a, k);
      } else if At(s) && s.carrier.b == k {
        CarryHere(s, a.c);
      } else {
        CarryElsewhere(s, a.c, k);
      }
    }
  }

  // ---- Whole runs ------------------------------------------------------------------------

  predicate Legal(s: System, run: seq<Action>)
    decreases |run|
  {
    run == [] || (Enabled(s, run[0]) && Legal(Apply(s, run[0]), run[1..]))
  }

  function After(s: System, run: seq<Action>): System
    requires Legal(s, run)
    decreases |run|
  {
    if run == [] then s else After(Apply(s, run[0]), run[1..])
  }

  lemma {:induction false} RunInv(s: System, run: seq<Action>)
    requires Inv(s) && Legal(s, run)
    ensures Inv(After(s, run)) && |After(s, run).boxes| == |s.boxes|
    decreases |run|
  {
    if run == [] {
    } else {
      StepInv(s, run[0]);
      RunInv(Apply(s, run[0]), run[1..]);
    }
  }

  /** Producer and carrier never work on the same list. */
  ghost predicate ListsApart(s: System, k: nat)
    requires k < |s.boxes|
  {
    var p, c := s.boxes[k].producer, s.carrier;
    p.Target? && At(s) && c.b == k && (c.Test? || c.Drain?) ==> p.i != c.i
  }

  /** Entering epoll_wait without a timeout, the carrier leaves no message it will not be woken for. */
  ghost predicate NoLostWakeup(s: System, k: nat)
    requires k < |s.boxes|
  {
    s.carrier == Wait(true) && (s.boxes[k].buffer0 != [] || s.boxes[k].buffer1 != []) ==>
      s.counter > 0 || !s.boxes[k].producer.Idle?
  }

  /** Over every run, for every box: messages are drained in the order of their posting, none
      lost or duplicated; the two sides never share a list; no wakeup is lost. */
  lemma Protocol(n: nat, run: seq<Action>, k: nat)
    requires Legal(Init(n), run) && k < n
    ensures
      var s := After(Init(n), run);
      && |s.boxes| == n
      && Conserved(s.boxes[k])
      && ListsApart(s, k)
      && NoLostWakeup(s, k)
  {
    InitInv(n);
    RunInv(Init(n), run);
    assert InvAt(After(Init(n), run), k);
  }

  /** So a carrier that sleeps on messages can be woken, now or when the producer has gone on. */
  lemma WakesUp(n: nat, run: seq<Action>, k: nat) returns (a: Action)
    requires Legal(Init(n), run) && k < n && After(Init(n), run).carrier == Wait(true)
    requires |After(Init(n), run).boxes| == n
    requires Messages(After(Init(n), run).boxes[k]) > 0
    ensures Enabled(After(Init(n), run), a)
    ensures a == Carry(EpollReturns(true)) || (a.Produce? && a.k == k)
  {
    Protocol(n, run, k);
    var s := After(Init(n), run);
    match s.boxes[k].producer
    case Idle => a := Carry(EpollReturns(true));
    case Marked(_) => a := Produce(k, LoadIndex);
    case Target(_, _) => a := Produce(k, Append);
    case Added => a := Produce(k, Unmark);
    case Cleared => a := Produce(k, Notify);
  }

  /** The list the carrier tests is always empty, so it never skips the exchange. */
  lemma AlwaysExchanges(s: System)
    requires Inv(s) && MayCarry(s, TestEmpty)
    ensures Apply(s, Carry(TestEmpty)).carrier == Load(s.carrier.b)
  {
    assert InvAt(s, s.carrier.b);
  }

  // ---- A round without posting ----------------------------------------------------------

  ghost predicate Quiet(s: System) {
    forall k :: 0 <= k < |s.boxes| ==> s.boxes[k].producer.Idle?
  }

  ghost predicate Swept(box: Box) { box.drained == box.posted }

  /** The boxes that a round begun in epoll_wait has finished with. */
  ghost predicate RoundInv(s: System) {
    && Quiet(s)
    && (!s.carrier.Wait? ==> s.consumed)
    && (s.carrier.Top? ==> forall k :: 0 <= k < |s.boxes| ==> Swept(s.boxes[k]))
    && (At(s) ==> forall k :: 0 <= k < s.carrier.b ==> Swept(s.boxes[k]))
    && (At(s) && (s.carrier.Select? || s.carrier.Drain?) ==>
          s.boxes[s.carrier.b].consuming && ProducerBuffer(s.boxes[s.carrier.b]) == [])
  }

  lemma QuietStep(s: System, step: CarrierStep)
    requires Inv(s) && RoundInv(s) && MayCarry(s, step) && !step.EpollFails?
    ensures RoundInv(Apply(s, Carry(step)))
  {
    if At(s) {
      var box := s.boxes[s.carrier.b];
      assert InvAt(s, s.carrier.b);
      if step.Exchange? { Exchanged(box, s.carrier); }
      if step.Pop? { Popped(box, s.carrier); }
    }
  }

  lemma {:induction false} QuietRun(s: System, run: seq<Action>)
    requires Inv(s) && RoundInv(s) && Legal(s, run)
    requires forall i :: 0 <= i < |run| ==> run[i].Carry? && !run[i].c.EpollFails?
    ensures RoundInv(After(s, run))
    decreases |run|
  {
    if run == [] {
    } else {
      StepInv(s, run[0]);
      QuietStep(s, run[0].c);
      QuietRun(Apply(s, run[0]), run[1..]);
    }
  }

  /** While nobody posts, a round that epoll_wait begins successfully drains every box and
      clears the way for an infinite timeout. */
  lemma QuietRound(n: nat, past: seq<Action>, round: seq<Action>)
    requires Legal(Init(n), past) && After(Init(n), past).carrier.Wait? && Quiet(After(Init(n), past))
    requires Legal(After(Init(n), past), round)
    requires forall i :: 0 <= i < |round| ==> round[i].Carry? && !round[i].c.EpollFails?
    ensures
      var s := After(After(Init(n), past), round);
      s.carrier.Top? ==> s.consumed && forall k :: 0 <= k < |s.boxes| ==> s.boxes[k].drained == s.boxes[k].posted
  {
    InitInv(n);
    RunInv(Init(n), past);
    QuietRun(After(Init(n), past), round);
  }

  /** The carrier's steps in a row of boxes that nobody posts to: six for a box, one for a message. */
  ghost function Work(boxes: seq<Box>): nat {
    if boxes == [] then 0 else 6 + Messages(boxes[0]) + Work(boxes[1..])
  }

  function Messages(box: Box): nat { |box.buffer0| + |box.buffer1| }

  /** How many more steps the carrier takes on the box it works on. */
  function StepsHere(c: Consumer): nat {
    match c
    case Look(_) => 6
    case Test(_, _) => 5
    case Load(_) => 4
    case Swap(_, _) => 3
    case Select(_) => 2
    case Drain(_, _) => 1
    case _ => 0
  }

  /** How many steps are left of a round at most. */
  ghost function Remaining(s: System): nat {
    if At(s) then StepsHere(s.carrier) + Messages(s.boxes[s.carrier.b]) + Work(s.boxes[s.carrier.b + 1..])
    else if s.carrier.Wait? then 2 + Work(s.boxes)
    else if s.carrier.Notice? then 1 + Work(s.boxes)
    else 0
  }

  /** A step of the carrier within a round. */
  predicate Inside(step: CarrierStep) { !step.ChooseTimeout? && !step.EpollFails? }

  lemma BeginRemaining(s: System, b: nat)
    requires b <= |s.boxes| && s.carrier == Begin(b, |s.boxes|)
    ensures Remaining(s) == Work(s.boxes[b..])
  {
    if b < |s.boxes| { assert s.boxes[b..][0] == s.boxes[b] && s.boxes[b..][1..] == s.boxes[b + 1..]; }
  }

  lemma MessagesLeft(box: Box, c: Consumer, step: CarrierStep)
    requires step.Exchange? ==> c.Swap?
    requires step.Pop? ==> c.Drain? && Buffer(box, c.i) != []
    ensures Messages(Consumed(box, c, step)) == Messages(box) - if step.Pop? then 1 else 0
  {}

  lemma StepShrinks(s: System, step: CarrierStep)
    requires MayCarry(s, step) && Inside(step)
    ensures Remaining(Apply(s, Carry(step))) < Remaining(s)
  {
    var s' := Apply(s, Carry(step));
    if At(s) {
      assert s'.boxes[s.carrier.b + 1..] == s.boxes[s.carrier.b + 1..];
      MessagesLeft(s.boxes[s.carrier.b], s.carrier, step);
      if step.NextBox? { BeginRemaining(s', s.carrier.b + 1); }
    } else {
      assert s.boxes[0..] == s.boxes;
      if !s'.carrier.Notice? { BeginRemaining(s', 0); }
    }
  }

  lemma {:induction false} RoundShrinks(s: System, round: seq<Action>)
    requires Legal(s, round) && forall i :: 0 <= i < |round| ==> round[i].Carry? && Inside(round[i].c)
    ensures |round| + Remaining(After(s, round)) <= Remaining(s)
    decreases |round|
  {
    if round == [] {
    } else {
      StepShrinks(s, round[0].c);
      RoundShrinks(Apply(s, round[0]), round[1..]);
    }
  }

  /** The step the carrier takes next within its round, if epoll_wait returns. */
  function NextStep(s: System): CarrierStep {
    match s.carrier
    case Top => EpollFails
    case Wait(_) => EpollReturns(false)
    case Notice => ReadEvent
    case Look(_) => ReadIndex
    case Test(_, _) => TestEmpty
    case Load(_) => LoadDesired
    case Swap(_, _) => Exchange
    case Select(_) => SelectList
    case Drain(b, i) => if b < |s.boxes| && Buffer(s.boxes[b], i) != [] then Pop else NextBox
  }

  /** Within a round the carrier is never stuck. */
  lemma GoesOn(s: System)
    requires Inv(s) && !s.carrier.Top?
    ensures Inside(NextStep(s)) && MayCarry(s, NextStep(s))
  {}

  /** Such a round ends: it can go on until the carrier is back at the top, and it does not take
      more than two steps, six for every box and one for every message. */
  lemma QuietRoundEnds(n: nat, past: seq<Action>, round: seq<Action>)
    requires Legal(Init(n), past) && After(Init(n), past).carrier.Wait?
    requires Legal(After(Init(n), past), round)
    requires forall i :: 0 <= i < |round| ==> round[i].Carry? && Inside(round[i].c)
    ensures |round| <= 2 + Work(After(Init(n), past).boxes)
    ensures
      var s := After(After(Init(n), past), round);
      s.carrier.Top? || (Inside(NextStep(s)) && MayCarry(s, NextStep(s)))
  {
    InitInv(n);
    RunInv(Init(n), past);
    var s := After(Init(n), past);
    RunInv(s, round);
    RoundShrinks(s, round);
    if !After(s, round).carrier.Top? { GoesOn(After(s, round)); }
  }

  /** While nobody posts, an eventfd that was read stays at zero. */
  lemma {:induction false} QuietCounter(s: System, run: seq<Action>)
    requires Legal(s, run) && (s.carrier.Notice? || s.counter == 0)
    requires forall i :: 0 <= i < |run| ==> run[i].Carry?
    ensures After(s, run).carrier.Notice? || After(s, run).counter == 0
    decreases |run|
  {
    if run == [] {
    } else {
      QuietCounter(Apply(s, run[0]), run[1..]);
    }
  }

  /** A quiet round that began with a report of the eventfd, or with nothing to report, leaves the
      carrier asleep: it may wait without a timeout, and the eventfd will not wake it. */
  lemma QuietSleeps(n: nat, past: seq<Action>, round: seq<Action>)
    requires Legal(Init(n), past) && After(Init(n), past).carrier.Wait? && Quiet(After(Init(n), past))
    requires Legal(After(Init(n), past), round)
    requires forall i :: 0 <= i < |round| ==> round[i].Carry? && !round[i].c.EpollFails?
    requires After(Init(n), past).counter == 0 || (round != [] && round[0].c == EpollReturns(true))
    ensures
      var s := After(After(Init(n), past), round);
      s.carrier.Top? ==>
        Enabled(s, Carry(ChooseTimeout(true))) &&
        !Enabled(Apply(s, Carry(ChooseTimeout(true))), Carry(EpollReturns(true)))
  {
    var s := After(Init(n), past);
    QuietRound(n, past, round);
    if s.counter == 0 {
      QuietCounter(s, round);
    } else {
      assert forall i :: 0 <= i < |round| - 1 ==> round[1..][i] == round[i + 1];
      QuietCounter(Apply(s, round[0]), round[1..]);
    }
  }
}
