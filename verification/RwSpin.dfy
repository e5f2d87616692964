/** p7/rwspin.c: the ticket reader/writer spinlock, as a transition system with one step per
    access to shared memory, any number of threads and every interleaving.  The same step
    functions are read twice: with 32-bit counters that wrap, and with counters that never
    wrap; the second is the reference the first is proved to follow. */
module RwSpin {
  import opened Lists
  import opened Words

  const WORD := 0x1_0000_0000

  /** Where a thread stands.  `ticket` is its `req_id`; `v` is the value it read in the first
      half of `completion++`. */
  datatype Pc =
    | Idle
    | Spin(ticket: nat, writer: bool)   // waiting for its turn
    | Count(ticket: nat)                // reader: about to raise n_readers
    | Fetch(ticket: nat)                // reader: about to read completion
    | Store(ticket: nat, v: nat)        // reader: about to write completion
    | Reading(ticket: nat)              // reader: in its critical section
    | Drain(ticket: nat)                // writer: waiting for n_readers to fall to zero
    | Writing(ticket: nat)              // writer: in its critical section
    | UnlockFetch(ticket: nat)          // writer: about to read completion
    | UnlockStore(ticket: nat, v: nat)  // writer: about to write completion

  datatype State = State(request: nat, completion: nat, nReaders: nat, threads: map<nat, Pc>)

  datatype Action =
    | TakeTicket(i: nat, writer: bool)
    | SeeTurn(i: nat)
    | SpinOn(i: nat)
    | RaiseReaders(i: nat)
    | ReadCompletion(i: nat)
    | WriteCompletion(i: nat)
    | SeeDrained(i: nat)
    | StartUnlock(i: nat)
    | LowerReaders(i: nat)

  /** Counter arithmetic: modulo `word`, or unbounded when `word` is zero. */
  function Wrap(x: int, word: nat): nat
    requires word == 0 ==> x >= 0
  {
    if word == 0 then x else x % word
  }

  function Init(ids: set<nat>): State {
    State(0, 0, 0, map i | i in ids :: Idle)
  }

  /** Whether a thread may act; `turn` says that completion shows its ticket, `drained` that
      n_readers is zero. */
  predicate MayStep(pc: Pc, turn: bool, drained: bool, a: Action) {
    match a
    case TakeTicket(_, _) => pc.Idle?
    case SeeTurn(_) => pc.Spin? && turn
    case SpinOn(_) => (pc.Spin? && !turn) || (pc.Drain? && !drained)
    case RaiseReaders(_) => pc.Count?
    case ReadCompletion(_) => pc.Fetch? || pc.UnlockFetch?
    case WriteCompletion(_) => pc.Store? || pc.UnlockStore?
    case SeeDrained(_) => pc.Drain? && drained
    case StartUnlock(_) => pc.Writing?
    case LowerReaders(_) => pc.Reading?
  }

  predicate Turn(s: State, pc: Pc) { pc.Spin? && s.completion == pc.ticket }

  predicate Enabled(s: State, a: Action) {
    a.i in s.threads && MayStep(s.threads[a.i], Turn(s, s.threads[a.i]), s.nReaders == 0, a)
  }

  /** Where the acting thread goes. */
  function NextPc(s: State, a: Action): Pc
    requires Enabled(s, a)
  {
    var pc := s.threads[a.i];
    match a
    case TakeTicket(_, writer) => Spin(s.request, writer)
    case SeeTurn(_) => if pc.writer then Drain(pc.ticket) else Count(pc.ticket)
    case SpinOn(_) => pc
    case RaiseReaders(_) => Fetch(pc.ticket)
    case ReadCompletion(_) => if pc.Fetch? then Store(pc.ticket, s.completion) else UnlockStore(pc.ticket, s.completion)
    case WriteCompletion(_) => if pc.Store? then Reading(pc.ticket) else Idle
    case SeeDrained(_) => Writing(pc.ticket)
    case StartUnlock(_) => UnlockFetch(pc.ticket)
    case LowerReaders(_) => Idle
  }

  function Apply(s: State, a: Action, word: nat): State
    requires Enabled(s, a) && (word == 0 && a.LowerReaders? ==> s.nReaders > 0)
  {
    State(
      if a.TakeTicket? then Wrap(s.request + 1, word) else s.request,
      if a.WriteCompletion? then Wrap(s.threads[a.i].v + 1, word) else s.completion,
      if a.RaiseReaders? then Wrap(s.nReaders + 1, word)
      else if a.LowerReaders? then Wrap(s.nReaders - 1, word)
      else s.nReaders,
      s.threads[a.i := NextPc(s, a)])
  }

  // ---- What the lock promises ---------------------------------------------------------

  predicate InWrite(pc: Pc) { pc.Writing? || pc.UnlockFetch? || pc.UnlockStore? }

  /** Between raising and lowering `n_readers`. */
  predicate Counted(pc: Pc) { pc.Fetch? || pc.Store? || pc.Reading? }

  /** A writer inside excludes every reader and every other writer. */
  ghost predicate Exclusive(s: State) {
    forall i, j :: i in s.threads && j in s.threads && i != j && InWrite(s.threads[i]) ==>
      !InWrite(s.threads[j]) && !Counted(s.threads[j])
  }

  // ---- The unbounded lock ---------------------------------------------------------------

  /** Holding a ticket that `completion` has not passed. */
  predicate Holds(pc: Pc) { !pc.Idle? && !pc.Reading? }

  /** Having seen its turn, and not yet passed it on. */
  predicate HasTurn(pc: Pc) { Holds(pc) && !pc.Spin? }

  ghost function Readers(s: State): set<nat> {
    set i | i in s.threads && Counted(s.threads[i])
  }

  ghost predicate Served(s: State, t: nat) {
    exists i :: i in s.threads && Holds(s.threads[i]) && s.threads[i].ticket == t
  }

  ghost predicate ThreadInv(s: State, i: nat)
    requires i in s.threads
  {
    var pc := s.threads[i];
    && (Holds(pc) ==> s.completion <= pc.ticket < s.request)
    && (HasTurn(pc) ==> pc.ticket == s.completion)
    && (pc.Store? || pc.UnlockStore? ==> pc.v == s.completion)
    && (pc.Reading? ==> pc.ticket < s.completion)
    && (InWrite(pc) ==> s.nReaders == 0)
  }

  /** No two threads hold the same ticket. */
  ghost predicate Distinct(s: State) {
    forall i, j :: i in s.threads && j in s.threads && i != j && Holds(s.threads[i]) && Holds(s.threads[j]) ==>
      s.threads[i].ticket != s.threads[j].ticket
  }

  ghost predicate Inv(s: State) {
    && s.completion <= s.request
    && (forall i :: i in s.threads ==> ThreadInv(s, i))
    && Distinct(s)
    && (forall t :: s.completion <= t < s.request ==> Served(s, t))
    && s.nReaders == |Readers(s)|
  }

  lemma InitInv(ids: set<nat>)
    ensures Inv(Init(ids))
  {
    assert Readers(Init(ids)) == {};
  }

  lemma InvExclusive(s: State)
    requires Inv(s)
    ensures Exclusive(s)
  {
    forall i, j | i in s.threads && j in s.threads && i != j && InWrite(s.threads[i])
      ensures !InWrite(s.threads[j]) && !Counted(s.threads[j])
    {
      assert ThreadInv(s, i) && ThreadInv(s, j);
      assert Counted(s.threads[j]) ==> j in Readers(s);
    }
  }

  /** A reader about to leave finds `n_readers` positive. */
  lemma NeverBelowZero(s: State, a: Action)
    requires Inv(s) && Enabled(s, a) && a.LowerReaders?
    ensures s.nReaders > 0
  {
    assert a.i in Readers(s);
  }

  lemma ReadersStep(s: State, s': State, i: nat)
    requires i in s.threads && i in s'.threads && s'.threads == s.threads[i := s'.threads[i]]
    ensures Readers(s') == if Counted(s'.threads[i]) then Readers(s) + {i} else Readers(s) - {i}
    ensures |Readers(s')| == |Readers(s)| + (if Counted(s'.threads[i]) then 1 else 0)
                             - (if Counted(s.threads[i]) then 1 else 0)
  {
    var r := Readers(s);
    assert i in r <==> Counted(s.threads[i]);
    if i in r {
      assert r + {i} == r && r == (r - {i}) + {i};
    } else {
      assert r - {i} == r;
    }
  }

  lemma StepThreads(s: State, a: Action, j: nat)
    requires Inv(s) && Enabled(s, a) && (a.LowerReaders? ==> s.nReaders > 0) && j in s.threads
    ensures ThreadInv(Apply(s, a, 0), j)
  {
    assert ThreadInv(s, a.i);
    assert ThreadInv(s, j);
  }

  lemma StepDistinct(s: State, a: Action)
    requires Inv(s) && Enabled(s, a) && (a.LowerReaders? ==> s.nReaders > 0)
    ensures Distinct(Apply(s, a, 0))
  {
    var s' := Apply(s, a, 0);
    forall j | j in s.threads && j != a.i && Holds(s'.threads[j]) && Holds(s'.threads[a.i])
      ensures s'.threads[j].ticket != s'.threads[a.i].ticket
    {
      assert ThreadInv(s, j);
    }
  }

  lemma StepServed(s: State, a: Action, t: nat)
    requires Inv(s) && Enabled(s, a) && (a.LowerReaders? ==> s.nReaders > 0)
    requires Apply(s, a, 0).completion <= t < Apply(s, a, 0).request
    ensures Served(Apply(s, a, 0), t)
  {
    var s' := Apply(s, a, 0);
    assert ThreadInv(s, a.i);
    if t < s.request {
      assert Served(s, t);
      var i :| i in s.threads && Holds(s.threads[i]) && s.threads[i].ticket == t;
      assert i in s'.threads && Holds(s'.threads[i]) && s'.threads[i].ticket == t;
    } else {
      assert a.i in s'.threads && Holds(s'.threads[a.i]) && s'.threads[a.i].ticket == t;
    }
  }

  lemma StepTurn(s: State, a: Action)
    requires Inv(s) && Enabled(s, a) && (a.LowerReaders? ==> s.nReaders > 0)
    ensures Apply(s, a, 0).completion <= Apply(s, a, 0).request
  {
    assert ThreadInv(s, a.i);
  }

  lemma StepReaders(s: State, a: Action)
    requires Inv(s) && Enabled(s, a) && (a.LowerReaders? ==> s.nReaders > 0)
    ensures Apply(s, a, 0).nReaders == |Readers(Apply(s, a, 0))|
  {
    ReadersStep(s, Apply(s, a, 0), a.i);
  }

  /** Every step of the unbounded lock keeps the invariant. */
  lemma StepInv(s: State, a: Action)
    requires Inv(s) && Enabled(s, a)
    ensures a.LowerReaders? ==> s.nReaders > 0
    ensures Inv(Apply(s, a, 0))
  {
    if a.LowerReaders? { NeverBelowZero(s, a); }
    var s' := Apply(s, a, 0);
    assert s'.threads.Keys == s.threads.Keys;
    assert Inv(s') by {
      StepTurn(s, a);
      StepReaders(s, a);
      StepDistinct(s, a);
      forall j | j in s'.threads ensures ThreadInv(s', j) { StepThreads(s, a, j); }
      forall t | s'.completion <= t < s'.request ensures Served(s', t) { StepServed(s, a, t); }
    }
  }

  /** The non-atomic increment of `completion` never loses an update. */
  lemma NoLostUpdate(s: State, a: Action)
    requires Inv(s) && Enabled(s, a) && a.WriteCompletion?
    ensures Apply(s, a, 0).completion == s.completion + 1
  {
    assert ThreadInv(s, a.i);
  }

  /** A new ticket is later than every ticket still held or already used. */
  lemma TicketsGrow(s: State, a: Action, j: nat)
    requires Inv(s) && Enabled(s, a) && a.TakeTicket? && j in s.threads && !s.threads[j].Idle?
    ensures s.threads[j].ticket < Apply(s, a, 0).threads[a.i].ticket
  {
    assert ThreadInv(s, j);
  }

  /** Inside the critical section, or leaving it. */
  predicate Entered(pc: Pc) { pc.Reading? || InWrite(pc) }

  /** Holding a ticket and not inside yet, be it for the turn or for the readers to drain. */
  predicate Waiting(pc: Pc) { Holds(pc) && !InWrite(pc) }

  /** Whoever has entered has an earlier ticket than whoever still waits. */
  ghost predicate FirstComeFirstServed(s: State) {
    forall i, j :: i in s.threads && j in s.threads && Entered(s.threads[i]) && Waiting(s.threads[j]) ==>
      s.threads[i].ticket < s.threads[j].ticket
  }

  /** Nobody is past the turnstile while somebody with an earlier ticket still spins. */
  ghost predicate TurnstileInOrder(s: State) {
    forall i, j :: i in s.threads && j in s.threads && PastTurnstile(s.threads[i]) && s.threads[j].Spin? ==>
      s.threads[i].ticket < s.threads[j].ticket
  }

  predicate PastTurnstile(pc: Pc) { HasTurn(pc) || pc.Reading? }

  lemma InvFcfs(s: State)
    requires Inv(s)
    ensures FirstComeFirstServed(s) && TurnstileInOrder(s)
  {
    forall i, j | i in s.threads && j in s.threads && Entered(s.threads[i]) && Waiting(s.threads[j])
      ensures s.threads[i].ticket < s.threads[j].ticket
    {
      assert ThreadInv(s, i) && ThreadInv(s, j);
    }
    forall i, j | i in s.threads && j in s.threads && PastTurnstile(s.threads[i]) && s.threads[j].Spin?
      ensures s.threads[i].ticket < s.threads[j].ticket
    {
      assert ThreadInv(s, i) && ThreadInv(s, j);
    }
  }

  lemma ReadersAreEarlier(s: State, w: nat)
    requires Inv(s) && w in s.threads && s.threads[w].Drain?
    ensures forall r :: r in Readers(s) ==> s.threads[r].ticket < s.threads[w].ticket
  {
    assert ThreadInv(s, w);
    forall r | r in Readers(s) ensures s.threads[r].ticket < s.threads[w].ticket {
      assert ThreadInv(s, r);
      assert s.threads[r].Reading?;
    }
  }

  /** While a writer waits for the readers, all of them have earlier tickets and none joins. */
  lemma DrainShrinks(s: State, a: Action, w: nat)
    requires Inv(s) && Enabled(s, a) && w in s.threads && s.threads[w].Drain? && a.i != w
    ensures forall r :: r in Readers(s) ==> s.threads[r].ticket < s.threads[w].ticket
    ensures a.LowerReaders? ==> s.nReaders > 0
    ensures Readers(Apply(s, a, 0)) == if a.LowerReaders? then Readers(s) - {a.i} else Readers(s)
  {
    if a.LowerReaders? { NeverBelowZero(s, a); }
    var s' := Apply(s, a, 0);
    assert ThreadInv(s, w) && ThreadInv(s, a.i);
    ReadersStep(s, s', a.i);
    ReadersAreEarlier(s, w);
  }

  /** The lock never jams: while a thread waits, some thread can do more than spin or queue up. */
  lemma Progress(s: State, i: nat) returns (a: Action)
    requires Inv(s) && i in s.threads && (s.threads[i].Spin? || s.threads[i].Drain?)
    ensures Enabled(s, a) && !a.SpinOn? && !a.TakeTicket?
  {
    assert ThreadInv(s, i);
    assert Served(s, s.completion);
    var j :| j in s.threads && Holds(s.threads[j]) && s.threads[j].ticket == s.completion;
    match s.threads[j]
    case Spin(_, _) => a := SeeTurn(j);
    case Count(_) => a := RaiseReaders(j);
    case Fetch(_) => a := ReadCompletion(j);
    case Store(_, _) => a := WriteCompletion(j);
    case Writing(_) => a := StartUnlock(j);
    case UnlockFetch(_) => a := ReadCompletion(j);
    case UnlockStore(_, _) => a := WriteCompletion(j);
    case Drain(_) =>
      if s.nReaders == 0 {
        a := SeeDrained(j);
      } else {
        assert Readers(s) != {};
        var r :| r in Readers(s);
        a := match s.threads[r]
             case Fetch(_) => ReadCompletion(r)
             case Store(_, _) => WriteCompletion(r)
             case _ => LowerReaders(r);
      }
  }

  // ---- How long a thread waits ----------------------------------------------------------------

  /** The steps that take a thread from here to idleness, other than waiting and drawing a ticket. */
  function StepsLeft(pc: Pc): nat {
    match pc
    case Idle => 0
    case Spin(_, _) => 5
    case Count(_) => 4
    case Fetch(_) => 3
    case Store(_, _) => 2
    case Reading(_) => 1
    case Drain(_) => 4
    case Writing(_) => 3
    case UnlockFetch(_) => 2
    case UnlockStore(_, _) => 1
  }

  /** What a thread contributes to the work up to ticket `t`. */
  function Share(pc: Pc, t: nat): nat {
    if pc.Idle? || pc.ticket > t then 0 else StepsLeft(pc)
  }

  ghost function Pick(ids: set<nat>): (i: nat)
    requires ids != {}
    ensures i in ids
  {
    var i :| i in ids; i
  }

  /** What the threads `ids` contribute. */
  ghost function Shares(threads: map<nat, Pc>, ids: set<nat>, t: nat): nat
    requires ids <= threads.Keys
  {
    if ids == {} then 0 else Share(threads[Pick(ids)], t) + Shares(threads, ids - {Pick(ids)}, t)
  }

  /** The steps left to all threads with tickets up to `t`. */
  ghost function Work(s: State, t: nat): nat { Shares(s.threads, s.threads.Keys, t) }

  lemma {:induction false} SharesApart(threads: map<nat, Pc>, ids: set<nat>, t: nat, j: nat)
    requires j in ids && ids <= threads.Keys
    ensures Shares(threads, ids, t) == Share(threads[j], t) + Shares(threads, ids - {j}, t)
    decreases |ids|
  {
    var i := Pick(ids);
    if i == j {
    } else {
      SharesApart(threads, ids - {i}, t, j);
      SharesApart(threads, ids - {j}, t, i);
      assert ids - {i} - {j} == ids - {j} - {i};
    }
  }

  lemma {:induction false} SharesSame(threads: map<nat, Pc>, threads': map<nat, Pc>, ids: set<nat>, t: nat)
    requires ids <= threads.Keys && ids <= threads'.Keys && forall i :: i in ids ==> threads[i] == threads'[i]
    ensures Shares(threads, ids, t) == Shares(threads', ids, t)
    decreases |ids|
  {
    if ids == {} {
    } else {
      SharesSame(threads, threads', ids - {Pick(ids)}, t);
    }
  }

  lemma {:induction false} SharesBound(threads: map<nat, Pc>, ids: set<nat>, t: nat)
    requires ids <= threads.Keys
    ensures Shares(threads, ids, t) <= 5 * |ids|
    decreases |ids|
  {
    if ids == {} {
    } else {
      SharesBound(threads, ids - {Pick(ids)}, t);
    }
  }

  lemma WorkStep(s: State, s': State, i: nat, t: nat)
    requires i in s.threads && i in s'.threads && s'.threads == s.threads[i := s'.threads[i]]
    ensures Work(s', t) == Work(s, t) - Share(s.threads[i], t) + Share(s'.threads[i], t)
  {
    var ids := s.threads.Keys;
    assert s'.threads.Keys == ids;
    SharesApart(s.threads, ids, t, i);
    SharesApart(s'.threads, ids, t, i);
    SharesSame(s.threads, s'.threads, ids - {i}, t);
  }

  /** A step that is neither waiting nor drawing a ticket. */
  predicate Productive(a: Action) { !a.TakeTicket? && !a.SpinOn? }

  /** Until ticket `t` is served, every productive step is one of those left up to `t`: whoever
      came later can only spin. */
  lemma StepWorks(s: State, a: Action, t: nat)
    requires Inv(s) && Enabled(s, a) && s.completion <= t && (a.TakeTicket? ==> t < s.request)
    ensures a.LowerReaders? ==> s.nReaders > 0
    ensures Work(Apply(s, a, 0), t) == Work(s, t) - if Productive(a) then 1 else 0
  {
    if a.LowerReaders? { NeverBelowZero(s, a); }
    assert ThreadInv(s, a.i);
    WorkStep(s, Apply(s, a, 0), a.i, t);
  }

  function ProductiveSteps(run: seq<Action>): nat {
    if run == [] then 0 else (if Productive(run[0]) then 1 else 0) + ProductiveSteps(run[1..])
  }

  lemma StepGrows(s: State, a: Action)
    requires Inv(s) && Enabled(s, a) && (a.LowerReaders? ==> s.nReaders > 0)
    ensures s.completion <= Apply(s, a, 0).completion && s.request <= Apply(s, a, 0).request
  {
    assert ThreadInv(s, a.i);
  }

  /** The turn never goes back. */
  lemma {:induction false} RunGrows(s: State, run: seq<Action>)
    requires Inv(s) && Legal(s, run, 0)
    ensures Inv(After(s, run, 0)) && s.completion <= After(s, run, 0).completion
    ensures After(s, run, 0).threads.Keys == s.threads.Keys
    decreases |run|
  {
    if run == [] {
    } else {
      StepInv(s, run[0]);
      StepGrows(s, run[0]);
      RunGrows(Apply(s, run[0], 0), run[1..]);
    }
  }

  /** As long as ticket `t` is not served, productive steps use up the work up to `t`. */
  lemma {:induction false} RunWorks(s: State, run: seq<Action>, t: nat)
    requires Inv(s) && Legal(s, run, 0) && After(s, run, 0).completion <= t
    requires t < s.request || forall k :: 0 <= k < |run| ==> !run[k].TakeTicket?
    ensures Work(After(s, run, 0), t) + ProductiveSteps(run) == Work(s, t)
    decreases |run|
  {
    if run == [] {
    } else {
      RunGrows(s, run);
      StepInv(s, run[0]);
      StepGrows(s, run[0]);
      StepWorks(s, run[0], t);
      assert forall k :: 0 <= k < |run| - 1 ==> run[1..][k] == run[k + 1];
      RunWorks(Apply(s, run[0], 0), run[1..], t);
    }
  }

  /** A ticket not yet served leaves work. */
  lemma WorkLeft(s: State, i: nat, t: nat)
    requires i in s.threads && !s.threads[i].Idle? && s.threads[i].ticket <= t
    ensures Work(s, t) > 0
  {
    SharesApart(s.threads, s.threads.Keys, t, i);
  }

  /** Bounded bypass: whatever tickets others draw meanwhile, a thread with a ticket has been
      served after as many productive steps as are left up to its ticket. */
  lemma BoundedBypass(s: State, run: seq<Action>, i: nat)
    requires Inv(s) && i in s.threads && Holds(s.threads[i]) && Legal(s, run, 0)
    requires ProductiveSteps(run) >= Work(s, s.threads[i].ticket)
    ensures After(s, run, 0).completion > s.threads[i].ticket
    ensures i in After(s, run, 0).threads
    ensures
      var pc := After(s, run, 0).threads[i];
      Holds(pc) ==> pc.ticket != s.threads[i].ticket
  {
    var w, t := After(s, run, 0), s.threads[i].ticket;
    assert ThreadInv(s, i);
    RunGrows(s, run);
    if w.completion <= t {
      RunWorks(s, run, t);
      RunRequests(s, run);
      assert Served(w, t);
      var j :| j in w.threads && Holds(w.threads[j]) && w.threads[j].ticket == t;
      WorkLeft(w, j, t);
    }
    assert ThreadInv(w, i);
  }

  lemma {:induction false} RunRequests(s: State, run: seq<Action>)
    requires Inv(s) && Legal(s, run, 0)
    ensures s.request <= After(s, run, 0).request
    decreases |run|
  {
    if run == [] {
    } else {
      StepInv(s, run[0]);
      StepGrows(s, run[0]);
      RunRequests(Apply(s, run[0], 0), run[1..]);
    }
  }

  /** Whoever is not idle, some thread can do something productive. */
  lemma CanGo(s: State, i: nat) returns (a: Action)
    requires Inv(s) && i in s.threads && !s.threads[i].Idle?
    ensures Enabled(s, a) && Productive(a)
  {
    match s.threads[i]
    case Spin(_, _) => a := Progress(s, i);
    case Drain(_) => a := Progress(s, i);
    case Count(_) => a := RaiseReaders(i);
    case Fetch(_) => a := ReadCompletion(i);
    case Store(_, _) => a := WriteCompletion(i);
    case Reading(_) => a := LowerReaders(i);
    case Writing(_) => a := StartUnlock(i);
    case UnlockFetch(_) => a := ReadCompletion(i);
    case UnlockStore(_, _) => a := WriteCompletion(i);
  }

  /** While nobody draws a ticket, at most five productive steps a thread are taken, and until
      everybody has entered and left there is one to take. */
  lemma QuietRunEnds(s: State, run: seq<Action>) returns (a: Action)
    requires Inv(s) && Legal(s, run, 0) && forall k :: 0 <= k < |run| ==> !run[k].TakeTicket?
    ensures ProductiveSteps(run) <= Work(s, s.request) <= 5 * |s.threads|
    ensures
      var w := After(s, run, 0);
      (forall i :: i in w.threads ==> w.threads[i].Idle?) || (Enabled(w, a) && Productive(a))
  {
    var w := After(s, run, 0);
    RunGrows(s, run);
    QuietRequests(s, run);
    RunWorks(s, run, s.request);
    SharesBound(s.threads, s.threads.Keys, s.request);
    assert |s.threads.Keys| == |s.threads|;
    if i :| i in w.threads && !w.threads[i].Idle? {
      a := CanGo(w, i);
    } else {
      a := SpinOn(0);
    }
  }

  lemma {:induction false} QuietRequests(s: State, run: seq<Action>)
    requires Inv(s) && Legal(s, run, 0) && forall k :: 0 <= k < |run| ==> !run[k].TakeTicket?
    ensures After(s, run, 0).request == s.request
    decreases |run|
  {
    if run == [] {
    } else {
      StepInv(s, run[0]);
      assert forall k :: 0 <= k < |run| - 1 ==> run[1..][k] == run[k + 1];
      QuietRequests(Apply(s, run[0], 0), run[1..]);
    }
  }

  // ---- Wrap-around --------------------------------------------------------------------------

  function WrappedPc(pc: Pc): Pc {
    match pc
    case Idle => Idle
    case Spin(t, w) => Spin(t % WORD, w)
    case Count(t) => Count(t % WORD)
    case Fetch(t) => Fetch(t % WORD)
    case Store(t, v) => Store(t % WORD, v % WORD)
    case Reading(t) => Reading(t % WORD)
    case Drain(t) => Drain(t % WORD)
    case Writing(t) => Writing(t % WORD)
    case UnlockFetch(t) => UnlockFetch(t % WORD)
    case UnlockStore(t, v) => UnlockStore(t % WORD, v % WORD)
  }

  /** What the 32-bit words of the lock and of its threads show of an unbounded state. */
  function Wrapped(s: State): State {
    State(s.request % WORD, s.completion % WORD, s.nReaders % WORD, map i | i in s.threads :: WrappedPc(s.threads[i]))
  }

  function Interval(lo: nat, hi: nat): (r: set<nat>)
    requires lo <= hi
    ensures |r| == hi - lo && forall t :: t in r <==> lo <= t < hi
    decreases hi - lo
  {
    if lo == hi then {} else Interval(lo, hi - 1) + {hi - 1}
  }

  function Tickets(s: State, ids: set<nat>): set<nat>
    requires ids <= s.threads.Keys && forall i :: i in ids ==> !s.threads[i].Idle?
  {
    set i | i in ids :: s.threads[i].ticket
  }

  lemma {:induction false} FewTickets(s: State, ids: set<nat>)
    requires ids <= s.threads.Keys && forall i :: i in ids ==> !s.threads[i].Idle?
    ensures |Tickets(s, ids)| <= |ids|
    decreases ids
  {
    if ids != {} {
      var i :| i in ids;
      FewTickets(s, ids - {i});
      assert Tickets(s, ids) == Tickets(s, ids - {i}) + {s.threads[i].ticket};
    }
  }

  /** At most one outstanding ticket per thread. */
  lemma Window(s: State)
    requires Inv(s)
    ensures s.request - s.completion <= |s.threads| && s.nReaders <= |s.threads|
  {
    var ids := set i | i in s.threads && Holds(s.threads[i]);
    FewTickets(s, ids);
    forall t | t in Interval(s.completion, s.request) ensures t in Tickets(s, ids) {
      assert Served(s, t);
    }
    SubsetSize(Interval(s.completion, s.request), Tickets(s, ids));
    SubsetSize(ids, s.threads.Keys);
    SubsetSize(Readers(s), s.threads.Keys);
  }

  lemma SameResidue(a: nat, b: nat)
    requires a <= b < a + WORD
    ensures a % WORD == b % WORD <==> a == b
  {}

  /** The two comparisons of counters that decide a step. */
  lemma SameTests(s: State, i: nat)
    requires Inv(s) && |s.threads| < WORD && i in s.threads
    ensures Turn(Wrapped(s), WrappedPc(s.threads[i])) == Turn(s, s.threads[i])
    ensures Wrapped(s).nReaders == 0 <==> s.nReaders == 0
  {
    Window(s);
    assert ThreadInv(s, i);
    if s.threads[i].Spin? { SameResidue(s.completion, s.threads[i].ticket); }
    SameResidue(0, s.nReaders);
  }

  lemma SameMayStep(pc: Pc, turn: bool, drained: bool, a: Action)
    ensures MayStep(WrappedPc(pc), turn, drained, a) == MayStep(pc, turn, drained, a)
  {}

  lemma SameEnabled(s: State, a: Action)
    requires Inv(s) && |s.threads| < WORD
    ensures Enabled(Wrapped(s), a) <==> Enabled(s, a)
  {
    if a.i in s.threads {
      SameTests(s, a.i);
      SameMayStep(s.threads[a.i], Turn(s, s.threads[a.i]), s.nReaders == 0, a);
    }
  }

  lemma SameNextPc(s: State, a: Action)
    requires Enabled(s, a) && Enabled(Wrapped(s), a)
    ensures NextPc(Wrapped(s), a) == WrappedPc(NextPc(s, a))
  {}

  lemma SameCounters(s: State, a: Action)
    requires Enabled(s, a) && Enabled(Wrapped(s), a) && (a.LowerReaders? ==> s.nReaders > 0)
    ensures
      var w, u := Apply(Wrapped(s), a, WORD), Wrapped(Apply(s, a, 0));
      w.request == u.request && w.completion == u.completion && w.nReaders == u.nReaders
  {
    match a
    case TakeTicket(_, _) => CountingUp(WORD, s.request);
    case WriteCompletion(i) =>
      assert Wrapped(s).threads[i] == WrappedPc(s.threads[i]);
      CountingUp(WORD, s.threads[i].v);
    case RaiseReaders(_) => CountingUp(WORD, s.nReaders);
    case LowerReaders(_) => CountingDown(WORD, s.nReaders);
    case _ =>
  }

  lemma SameThreads(s: State, a: Action)
    requires Enabled(s, a) && Enabled(Wrapped(s), a) && (a.LowerReaders? ==> s.nReaders > 0)
    ensures Apply(Wrapped(s), a, WORD).threads == Wrapped(Apply(s, a, 0)).threads
  {
    SameNextPc(s, a);
    var w, u := Apply(Wrapped(s), a, WORD).threads, Wrapped(Apply(s, a, 0)).threads;
    assert w.Keys == u.Keys;
    forall i | i in w ensures w[i] == u[i] {}
  }

  /** With fewer than 2^32 threads the wrapping lock does exactly what the unbounded one does. */
  lemma Simulates(s: State, a: Action)
    requires Inv(s) && |s.threads| < WORD
    ensures Enabled(Wrapped(s), a) <==> Enabled(s, a)
    ensures Enabled(s, a) ==>
              ((a.LowerReaders? ==> s.nReaders > 0) && Apply(Wrapped(s), a, WORD) == Wrapped(Apply(s, a, 0)))
  {
    SameEnabled(s, a);
    if Enabled(s, a) {
      if a.LowerReaders? { NeverBelowZero(s, a); }
      SameCounters(s, a);
      SameThreads(s, a);
    }
  }

  // ---- Whole runs -----------------------------------------------------------------------------

  predicate Legal(s: State, run: seq<Action>, word: nat)
    decreases |run|
  {
    run == [] || (
      && Enabled(s, run[0])
      && (word == 0 && run[0].LowerReaders? ==> s.nReaders > 0)
      && Legal(Apply(s, run[0], word), run[1..], word))
  }

  function After(s: State, run: seq<Action>, word: nat): State
    requires Legal(s, run, word)
    decreases |run|
  {
    if run == [] then s else After(Apply(s, run[0], word), run[1..], word)
  }

  lemma {:induction false} Follows(s: State, run: seq<Action>)
    requires Inv(s) && |s.threads| < WORD && Legal(Wrapped(s), run, WORD)
    ensures Legal(s, run, 0) && Inv(After(s, run, 0))
    ensures After(Wrapped(s), run, WORD) == Wrapped(After(s, run, 0))
    decreases |run|
  {
    if run == [] {
    } else {
      Simulates(s, run[0]);
      StepInv(s, run[0]);
      assert Apply(s, run[0], 0).threads.Keys == s.threads.Keys;
      Follows(Apply(s, run[0], 0), run[1..]);
    }
  }

  lemma WrappedExclusive(s: State)
    requires Inv(s)
    ensures Exclusive(Wrapped(s))
  {
    InvExclusive(s);
    var w := Wrapped(s);
    forall i, j | i in w.threads && j in w.threads && i != j && InWrite(w.threads[i])
      ensures !InWrite(w.threads[j]) && !Counted(w.threads[j])
    {
      assert w.threads[i] == WrappedPc(s.threads[i]) && w.threads[j] == WrappedPc(s.threads[j]);
    }
  }

  lemma WrappedInit(ids: set<nat>)
    ensures Wrapped(Init(ids)) == Init(ids) && Init(ids).threads.Keys == ids
  {
    assert Wrapped(Init(ids)).threads == Init(ids).threads;
  }

  lemma {:induction false} LastStep(s: State, run: seq<Action>, word: nat)
    requires Legal(s, run, word) && run != []
    ensures
      var n := |run| - 1;
      && Legal(s, run[..n], word) && Enabled(After(s, run[..n], word), run[n])
      && (word == 0 && run[n].LowerReaders? ==> After(s, run[..n], word).nReaders > 0)
      && After(s, run, word) == Apply(After(s, run[..n], word), run[n], word)
    decreases |run|
  {
    if |run| == 1 {
      assert run[1..] == [];
    } else {
      LastStep(Apply(s, run[0], word), run[1..], word);
      assert run[..|run| - 1][1..] == run[1..][..|run| - 2];
    }
  }

  predicate Draws(a: Action, i: nat) { a.TakeTicket? && a.i == i }

  /** The last ticket that thread `i` drew in the run was for writing, or for reading. */
  ghost predicate AskedLast(run: seq<Action>, i: nat, writer: bool) {
    exists k :: 0 <= k < |run| && run[k] == TakeTicket(i, writer) && forall j :: k < j < |run| ==> !Draws(run[j], i)
  }

  /** Nobody's last request is both. */
  lemma AskedOnce(run: seq<Action>, i: nat)
    ensures !(AskedLast(run, i, true) && AskedLast(run, i, false))
  {
    if AskedLast(run, i, true) && AskedLast(run, i, false) {
      var k :| 0 <= k < |run| && run[k] == TakeTicket(i, true) && forall j :: k < j < |run| ==> !Draws(run[j], i);
      var l :| 0 <= l < |run| && run[l] == TakeTicket(i, false) && forall j :: l < j < |run| ==> !Draws(run[j], i);
      assert Draws(run[k], i) && Draws(run[l], i);
    }
  }

  lemma AskedStill(run: seq<Action>, i: nat, writer: bool)
    requires run != [] && !Draws(run[|run| - 1], i) && AskedLast(run[..|run| - 1], i, writer)
    ensures AskedLast(run, i, writer)
  {
    var t := run[..|run| - 1];
    var k :| 0 <= k < |t| && t[k] == TakeTicket(i, writer) && forall j :: k < j < |t| ==> !Draws(t[j], i);
    forall j | k < j < |run| ensures !Draws(run[j], i) {
      if j < |t| { assert t[j] == run[j]; }
    }
    assert run[k] == TakeTicket(i, writer);
  }

  /** A thread stands where somebody who asked for what it asked for may stand. */
  ghost predicate AsAsked(pc: Pc, run: seq<Action>, i: nat) {
    match pc
    case Idle => true
    case Spin(_, writer) => AskedLast(run, i, writer)
    case Drain(_) => AskedLast(run, i, true)
    case Writing(_) => AskedLast(run, i, true)
    case UnlockFetch(_) => AskedLast(run, i, true)
    case UnlockStore(_, _) => AskedLast(run, i, true)
    case _ => AskedLast(run, i, false)
  }

  lemma StepAsAsked(s: State, a: Action, word: nat, run: seq<Action>, i: nat)
    requires Enabled(s, a) && (word == 0 && a.LowerReaders? ==> s.nReaders > 0)
    requires run != [] && run[|run| - 1] == a && i in s.threads && AsAsked(s.threads[i], run[..|run| - 1], i)
    ensures AsAsked(Apply(s, a, word).threads[i], run, i)
  {
    if Draws(a, i) {
      assert a == TakeTicket(i, a.writer) && AskedLast(run, i, a.writer);
    } else {
      if AskedLast(run[..|run| - 1], i, true) { AskedStill(run, i, true); }
      if AskedLast(run[..|run| - 1], i, false) { AskedStill(run, i, false); }
    }
  }

  lemma {:induction false} RunAsAsked(ids: set<nat>, run: seq<Action>, word: nat)
    requires Legal(Init(ids), run, word)
    ensures After(Init(ids), run, word).threads.Keys == ids
    ensures forall i :: i in ids ==> AsAsked(After(Init(ids), run, word).threads[i], run, i)
    decreases |run|
  {
    if run == [] {
    } else {
      var n := |run| - 1;
      LastStep(Init(ids), run, word);
      RunAsAsked(ids, run[..n], word);
      forall i | i in ids ensures AsAsked(After(Init(ids), run, word).threads[i], run, i) {
        StepAsAsked(After(Init(ids), run[..n], word), run[n], word, run, i);
      }
    }
  }

  /** Whoever reads asked to read and whoever writes asked to write; and a thread inside that asked
      to write excludes everybody else. */
  ghost predicate InsideAsAsked(s: State, run: seq<Action>) {
    && (forall i :: i in s.threads && s.threads[i].Reading? ==> AskedLast(run, i, false))
    && (forall i :: i in s.threads && InWrite(s.threads[i]) ==> AskedLast(run, i, true))
    && (forall i, j :: i in s.threads && j in s.threads && i != j ==>
          (Entered(s.threads[i]) && AskedLast(run, i, true) ==> !Entered(s.threads[j]) && !Counted(s.threads[j])))
  }

  lemma InsideOfRun(ids: set<nat>, run: seq<Action>)
    requires |ids| < WORD && Legal(Init(ids), run, WORD) && Exclusive(After(Init(ids), run, WORD))
    ensures InsideAsAsked(After(Init(ids), run, WORD), run)
  {
    RunAsAsked(ids, run, WORD);
    EachAsAsked(After(Init(ids), run, WORD), run);
  }

  lemma EachAsAsked(s: State, run: seq<Action>)
    requires Exclusive(s) && forall i :: i in s.threads ==> AsAsked(s.threads[i], run, i)
    ensures InsideAsAsked(s, run)
  {
    forall i, j | i in s.threads && j in s.threads && i != j
      ensures Entered(s.threads[i]) && AskedLast(run, i, true) ==> !Entered(s.threads[j]) && !Counted(s.threads[j])
    {
      assert AsAsked(s.threads[i], run, i);
      AskedOnce(run, i);
    }
  }

  /** Safety over every run of the 32-bit lock, from creation, for any set of fewer than 2^32
      threads: writers exclude, and entry follows the order in which tickets were drawn. */
  lemma LockSafety(ids: set<nat>, run: seq<Action>)
    requires |ids| < WORD && Legal(Init(ids), run, WORD)
    ensures Exclusive(After(Init(ids), run, WORD)) && InsideAsAsked(After(Init(ids), run, WORD), run)
    ensures Legal(Init(ids), run, 0)
    ensures After(Init(ids), run, WORD) == Wrapped(After(Init(ids), run, 0))
    ensures Inv(After(Init(ids), run, 0))
    ensures FirstComeFirstServed(After(Init(ids), run, 0)) && TurnstileInOrder(After(Init(ids), run, 0))
  {
    InitInv(ids);
    WrappedInit(ids);
    Follows(Init(ids), run);
    WrappedExclusive(After(Init(ids), run, 0));
    InsideOfRun(ids, run);
    InvFcfs(After(Init(ids), run, 0));
  }

  /** The unbounded state that a state of the 32-bit lock stands for. */
  lemma Shadow(ids: set<nat>, past: seq<Action>)
    requires |ids| < WORD && Legal(Init(ids), past, WORD)
    ensures Legal(Init(ids), past, 0)
    ensures
      var s := After(Init(ids), past, 0);
      Inv(s) && After(Init(ids), past, WORD) == Wrapped(s) && s.threads.Keys == ids && |s.threads| == |ids|
  {
    InitInv(ids);
    WrappedInit(ids);
    Follows(Init(ids), past);
    RunGrows(Init(ids), past);
    assert |After(Init(ids), past, 0).threads| == |After(Init(ids), past, 0).threads.Keys|;
  }

  lemma ShadowServes(s: State, run: seq<Action>, i: nat)
    requires Inv(s) && |s.threads| < WORD && Legal(Wrapped(s), run, WORD)
    requires i in s.threads && Holds(s.threads[i]) && ProductiveSteps(run) >= 5 * |s.threads|
    ensures Legal(s, run, 0)
    ensures
      var w := After(s, run, 0);
      && After(Wrapped(s), run, WORD) == Wrapped(w) && i in w.threads
      && (Holds(w.threads[i]) ==> w.threads[i].ticket != s.threads[i].ticket)
  {
    Follows(s, run);
    SharesBound(s.threads, s.threads.Keys, s.threads[i].ticket);
    assert |s.threads.Keys| == |s.threads|;
    BoundedBypass(s, run, i);
  }

  lemma WrappedHolds(s: State, i: nat)
    requires i in Wrapped(s).threads && Holds(Wrapped(s).threads[i])
    ensures i in s.threads && Holds(s.threads[i])
  {
    assert Wrapped(s).threads[i] == WrappedPc(s.threads[i]);
  }

  /** Bounded bypass of the 32-bit lock: in every reachable state, a thread that holds a ticket has
      been served after five productive steps a thread, whoever takes them. */
  lemma LockServes(ids: set<nat>, past: seq<Action>, run: seq<Action>, i: nat)
    requires |ids| < WORD && Legal(Init(ids), past, WORD) && Legal(After(Init(ids), past, WORD), run, WORD)
    requires i in After(Init(ids), past, WORD).threads && Holds(After(Init(ids), past, WORD).threads[i])
    requires ProductiveSteps(run) >= 5 * |ids|
    ensures Legal(Init(ids), past, 0) && Legal(After(Init(ids), past, 0), run, 0)
    ensures
      var s, w := After(Init(ids), past, 0), After(After(Init(ids), past, 0), run, 0);
      && After(After(Init(ids), past, WORD), run, WORD) == Wrapped(w)
      && i in s.threads && Holds(s.threads[i]) && i in w.threads
      && (Holds(w.threads[i]) ==> w.threads[i].ticket != s.threads[i].ticket)
  {
    Shadow(ids, past);
    WrappedHolds(After(Init(ids), past, 0), i);
    ShadowServes(After(Init(ids), past, 0), run, i);
  }

  /** Thread `i` takes its turn to read. */
  function ReaderTurn(i: nat): seq<Action> {
    [SeeTurn(i), RaiseReaders(i), ReadCompletion(i), WriteCompletion(i)]
  }

  /** Thread `i` takes its turn to write, with no reader inside. */
  function WriterTurn(i: nat): seq<Action> { [SeeTurn(i), SeeDrained(i)] }

  /** Readers share: while others read, a thread that asked to read and whose turn it is gets in by
      four steps of its own, and nobody else moves. */
  lemma ReadersShare(ids: set<nat>, past: seq<Action>, i: nat)
    requires Legal(Init(ids), past, WORD) && i in ids && AskedLast(past, i, false)
    requires i in After(Init(ids), past, WORD).threads
    requires Turn(After(Init(ids), past, WORD), After(Init(ids), past, WORD).threads[i])
    ensures
      var s := After(Init(ids), past, WORD);
      && Legal(s, ReaderTurn(i), WORD)
      && var w := After(s, ReaderTurn(i), WORD);
         w.threads.Keys == ids && w.threads[i].Reading? &&
         forall r :: r in ids && r != i ==> r in s.threads && w.threads[r] == s.threads[r]
  {
    RunAsAsked(ids, past, WORD);
    AskedOnce(past, i);
    var s := After(Init(ids), past, WORD);
    var s1 := Apply(s, SeeTurn(i), WORD);
    var s2 := Apply(s1, RaiseReaders(i), WORD);
    var s3 := Apply(s2, ReadCompletion(i), WORD);
    OneStep(s, ReaderTurn(i));
    OneStep(s1, ReaderTurn(i)[1..]);
    OneStep(s2, ReaderTurn(i)[1..][1..]);
    OneStep(s3, ReaderTurn(i)[1..][1..][1..]);
  }

  lemma OneStep(s: State, run: seq<Action>)
    requires run != [] && Enabled(s, run[0])
    ensures Legal(Apply(s, run[0], WORD), run[1..], WORD) ==>
              (Legal(s, run, WORD) && After(s, run, WORD) == After(Apply(s, run[0], WORD), run[1..], WORD))
  {}

  /** A thread that asked to write and whose turn it is gets in by two steps of its own when nobody
      reads. */
  lemma WriterEnters(ids: set<nat>, past: seq<Action>, i: nat)
    requires Legal(Init(ids), past, WORD) && i in ids && AskedLast(past, i, true)
    requires i in After(Init(ids), past, WORD).threads
    requires Turn(After(Init(ids), past, WORD), After(Init(ids), past, WORD).threads[i])
    requires After(Init(ids), past, WORD).nReaders == 0
    ensures
      var s := After(Init(ids), past, WORD);
      && Legal(s, WriterTurn(i), WORD)
      && var w := After(s, WriterTurn(i), WORD);
         w.threads.Keys == ids && w.threads[i].Writing? &&
         forall r :: r in ids && r != i ==> r in s.threads && w.threads[r] == s.threads[r]
  {
    RunAsAsked(ids, past, WORD);
    AskedOnce(past, i);
    var s := After(Init(ids), past, WORD);
    OneStep(s, WriterTurn(i));
    OneStep(Apply(s, SeeTurn(i), WORD), WriterTurn(i)[1..]);
  }
}
