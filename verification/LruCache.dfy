/** util/scraft_lru_cache.c: a cache of bounded size over the red-black tree and a queue ordered
    by recency.  An entry is the tree node embedded in it. */
module LruCache {
  import opened Comparators
  import opened Lists
  import opened RbShape
  import opened RbHeap
  import opened Rbt
  import opened Words

  const WORD := 0x1_0000_0000

  // ---- The plain recency list ------------------------------------------------------------

  /** No two entries of the queue have equal keys. */
  ghost predicate KeysDiffer(cmp: (int, int) -> int, q: seq<Node>) {
    forall i, j :: 0 <= i < j < |q| ==> cmp(q[i].key, q[j].key) != 0
  }

  ghost predicate Absent(cmp: (int, int) -> int, q: seq<Node>, key: int) {
    forall i :: 0 <= i < |q| ==> cmp(key, q[i].key) != 0
  }

  /** `q` without its last entry if the 32-bit count exceeds `cap`. */
  ghost function Trimmed(cap: nat, q: seq<Node>): seq<Node>
    requires q != []
  {
    if |q| % WORD > cap then q[..|q| - 1] else q
  }

  /** `q` after `e` is put in front. */
  ghost function Added(cap: nat, q: seq<Node>, e: Node): seq<Node> {
    Trimmed(cap, [e] + q)
  }

  /** An addition keeps to the capacity exactly when the count has room for one more: with the
      largest capacity of all, a full cache wraps its count to zero and evicts nothing. */
  lemma AddedWithinCap(cap: nat, q: seq<Node>, e: Node)
    requires |q| <= cap < WORD
    ensures |Added(cap, q, e)| <= cap <==> |q| + 1 < WORD
    ensures |q| + 1 < WORD ==> Added(cap, q, e) == if |q| < cap then [e] + q else ([e] + q)[..|q|]
  {}

  lemma AddedBound(cap: nat, q: seq<Node>, e: Node)
    requires cap < WORD && (cap + 1 < WORD ==> |q| <= cap)
    ensures cap + 1 < WORD ==> |Added(cap, q, e)| <= cap
  {}

  lemma AddedElements(cap: nat, q: seq<Node>, e: Node)
    ensures Elements(Added(cap, q, e)) <= Elements(q) + {e}
  {}

  /** The largest capacity there is: a full cache of it takes one more and evicts nothing. */
  lemma LargestOverflows(q: seq<Node>, e: Node)
    requires |q| == WORD - 1
    ensures Added(WORD - 1, q, e) == [e] + q && |Added(WORD - 1, q, e)| > WORD - 1
  {}

  /** `q` with `e` moved to the front. */
  ghost function Touched(q: seq<Node>, e: Node): seq<Node> {
    [e] + Dropped(q, e)
  }

  // ---- Recency ---------------------------------------------------------------------------

  /** One more than the last position of `e` in the log of uses; zero when it was never used. */
  ghost function LastUse(log: seq<Node>, e: Node): nat {
    if log == [] then 0 else if log[|log| - 1] == e then |log| else LastUse(log[..|log| - 1], e)
  }

  lemma {:induction false} LastUseBound(log: seq<Node>, e: Node)
    ensures LastUse(log, e) <= |log|
  {
    if log == [] {
    } else {
      LastUseBound(log[..|log| - 1], e);
    }
  }

  /** The queue lists its entries from the last used to the one unused for longest. */
  ghost predicate ByRecency(log: seq<Node>, q: seq<Node>) {
    forall i, j :: 0 <= i < j < |q| ==> LastUse(log, q[i]) > LastUse(log, q[j])
  }

  lemma UsedNow(log: seq<Node>, e: Node, x: Node)
    ensures LastUse(log + [e], x) == if x == e then |log| + 1 else LastUse(log, x)
  {
    assert (log + [e])[..|log|] == log;
  }

  /** What the queue of a cache keeps. */
  ghost predicate Listed(cmp: (int, int) -> int, log: seq<Node>, q: seq<Node>) {
    NoTwice(q) && KeysDiffer(cmp, q) && ByRecency(log, q)
  }

  lemma CountOf(cmp: (int, int) -> int, log: seq<Node>, q: seq<Node>)
    requires Listed(cmp, log, q)
    ensures |Elements(q)| == |q|
  {
    SizeOf(q);
  }

  lemma AddedListed(cmp: (int, int) -> int, log: seq<Node>, q: seq<Node>, e: Node)
    requires Listed(cmp, log, q) && e !in Elements(q) && Absent(cmp, q, e.key)
    ensures Listed(cmp, log + [e], [e] + q) && Elements([e] + q) == Elements(q) + {e}
  {
    var t := [e] + q;
    forall i, j | 0 <= i < j < |t| ensures LastUse(log + [e], t[i]) > LastUse(log + [e], t[j]) {
      UsedNow(log, e, t[i]);
      UsedNow(log, e, t[j]);
      LastUseBound(log, t[j]);
    }
  }

  lemma RemovedListed(cmp: (int, int) -> int, log: seq<Node>, q: seq<Node>, e: Node)
    requires Listed(cmp, log, q) && e in Elements(q)
    ensures Listed(cmp, log, Dropped(q, e))
    ensures Elements(Dropped(q, e)) == Elements(q) - {e} && |Dropped(q, e)| == |q| - 1
  {
    var i :| 0 <= i < |q| && q[i] == e;
    DroppedAt(q, i);
    RemovedIndex(cmp, log, q, i);
  }

  lemma RemovedIndex(cmp: (int, int) -> int, log: seq<Node>, q: seq<Node>, i: nat)
    requires Listed(cmp, log, q) && i < |q|
    ensures Listed(cmp, log, q[..i] + q[i + 1..]) && Elements(q[..i] + q[i + 1..]) == Elements(q) - {q[i]}
  {
    var t := q[..i] + q[i + 1..];
    forall j, k | 0 <= j < k < |t|
      ensures t[j] != t[k] && cmp(t[j].key, t[k].key) != 0 && LastUse(log, t[j]) > LastUse(log, t[k])
    {
      var j', k' := if j < i then j else j + 1, if k < i then k else k + 1;
      assert t[j] == q[j'] && t[k] == q[k'];
    }
    RemovedAt(q, i);
  }

  lemma OthersDiffer(cmp: (int, int) -> int, q: seq<Node>, i: nat)
    requires ThreeWay(cmp) && KeysDiffer(cmp, q) && i < |q|
    ensures Absent(cmp, q[..i] + q[i + 1..], q[i].key)
  {
    var t := q[..i] + q[i + 1..];
    forall j | 0 <= j < |t| ensures cmp(q[i].key, t[j].key) != 0 {
      var k := if j < i then j else j + 1;
      assert t[j] == q[k];
      Laws(cmp, q[i].key, q[k].key, q[i].key);
    }
  }

  lemma TouchedListed(cmp: (int, int) -> int, log: seq<Node>, q: seq<Node>, e: Node)
    requires ThreeWay(cmp) && Listed(cmp, log, q) && e in Elements(q)
    ensures Listed(cmp, log + [e], Touched(q, e)) && Elements(Touched(q, e)) == Elements(q) && |Touched(q, e)| == |q|
  {
    RemovedListed(cmp, log, q, e);
    var i := RemovedWhere(q, e);
    OthersDiffer(cmp, q, i);
    AddedListed(cmp, log, Dropped(q, e), e);
  }

  /** `e` is not in the queue and has been unused for longer than all its entries. */
  ghost predicate OlderThanAll(log: seq<Node>, e: Node, q: seq<Node>) {
    e !in q && forall i :: 0 <= i < |q| ==> LastUse(log, e) < LastUse(log, q[i])
  }

  /** The last entry of a queue is the one unused for longest. */
  lemma LastIsOldest(log: seq<Node>, q: seq<Node>)
    requires NoTwice(q) && ByRecency(log, q) && q != []
    ensures Dropped(q, q[|q| - 1]) == q[..|q| - 1] && OlderThanAll(log, q[|q| - 1], q[..|q| - 1])
  {
    DroppedAt(q, |q| - 1);
    assert q[..|q| - 1] + q[|q| - 1 + 1..] == q[..|q| - 1];
  }

  // ---- The cache -------------------------------------------------------------------------

  class Cache {
    const cap: nat
    var size: nat
    const index: RbTree
    var queue: seq<Node>
    ghost var log: seq<Node>        // every entry added or fetched, oldest first

    /** What an addition keeps even before it evicts. */
    ghost predicate Counted()
      reads this, index, index.sentinel, Nodes(index.tree)
    {
      Consistent() && size == |queue| % WORD && cap < WORD
    }

    /** Between operations the capacity is kept too, unless it is the largest a word can hold. */
    ghost predicate Valid()
      reads this, index, index.sentinel, Nodes(index.tree)
    {
      Counted() && (cap + 1 < WORD ==> |queue| <= cap)
    }

    /** `size` is the number of entries in the queue, and in the tree, and at most the capacity. */
    lemma WithinCapacity()
      requires Valid() && cap + 1 < WORD
      ensures size == |queue| == |Nodes(index.tree)| && size <= cap
    {
      CountOf(index.keyCompare, log, queue);
      Residue(WORD, |queue|, 0, |queue|);
    }

    /** The queue and the tree hold the same entries. */
    ghost predicate Consistent()
      reads `queue, `log, index, index.sentinel, Nodes(index.tree)
    {
      index.Valid() && Elements(queue) == Nodes(index.tree) && Listed(index.keyCompare, log, queue)
    }

    constructor (cap: nat, keyCompare: (int, int) -> int)
      requires cap < WORD && ThreeWay(keyCompare)
      ensures Valid() && queue == [] && this.cap == cap && fresh(index) && fresh(index.sentinel)
      ensures index.keyCompare == keyCompare
    {
      this.cap, size, queue, log := cap, 0, [], [];
      index := new RbTree(keyCompare);
    }

    /** `scraft_lru_cache_add_`. */
    method AddInner(entry: Node)
      requires Counted() && entry !in queue && entry != index.sentinel && Absent(index.keyCompare, queue, entry.key)
      modifies this, index, index.sentinel, Nodes(index.tree), entry
      ensures Counted() && queue == [entry] + old(queue) && log == old(log) + [entry]
    {
      ghost var n := |queue|;
      Enqueue(entry);
      Index(entry);
      CountUp(n);
    }

    method Enqueue(entry: Node)
      requires Listed(index.keyCompare, log, queue) && entry !in queue && Absent(index.keyCompare, queue, entry.key)
      modifies `queue, `log
      ensures Listed(index.keyCompare, log, queue) && Elements(queue) == old(Elements(queue)) + {entry}
      ensures queue == [entry] + old(queue) && log == old(log) + [entry] && entry !in old(Elements(queue))
    {
      assert entry !in Elements(queue);
      AddedListed(index.keyCompare, log, queue, entry);
      queue := [entry] + queue;
      log := log + [entry];
    }

    method Index(entry: Node)
      requires index.Valid() && entry !in Nodes(index.tree) && entry != index.sentinel
      requires Elements(queue) == Nodes(index.tree) + {entry} && Listed(index.keyCompare, log, queue)
      modifies index, index.sentinel, Nodes(index.tree), entry
      ensures Consistent()
    {
      index.Insert(entry);
    }

    method CountUp(ghost n: nat)
      requires Consistent() && size == n % WORD && |queue| == n + 1 && cap < WORD
      modifies `size
      ensures Counted()
    {
      CountingUp(WORD, n);
      size := (size + 1) % WORD;
    }

    /** `destroyed` is what the destructor gets, after it has left queue and tree. */
    method Delete(entry: Node) returns (destroyed: Node)
      requires Counted() && entry in queue
      modifies this, index, index.sentinel, Nodes(index.tree)
      ensures Counted() && queue == Dropped(old(queue), entry) && log == old(log)
      ensures old(Valid()) ==> Valid()
      ensures destroyed == entry && destroyed !in queue && destroyed !in Nodes(index.tree)
    {
      ghost var n := |queue|;
      TakeOut(entry);
      destroyed := entry;
      CountDown(n);
    }

    method TakeOut(entry: Node)
      requires Consistent() && entry in queue
      modifies `queue, index, index.sentinel, Nodes(index.tree)
      ensures Consistent() && queue == Dropped(old(queue), entry) && |queue| + 1 == old(|queue|)
      ensures entry !in queue && entry !in Nodes(index.tree)
    {
      Unqueue(entry);
      Unindex(entry);
    }

    method Unqueue(entry: Node)
      requires Listed(index.keyCompare, log, queue) && entry in queue
      modifies `queue
      ensures Listed(index.keyCompare, log, queue) && queue == Dropped(old(queue), entry)
      ensures old(Elements(queue)) == Elements(queue) + {entry} && entry !in Elements(queue)
      ensures |queue| + 1 == old(|queue|)
    {
      assert entry in Elements(queue);
      RemovedListed(index.keyCompare, log, queue, entry);
      queue := Dropped(queue, entry);
    }

    method Unindex(entry: Node)
      requires index.Valid() && Nodes(index.tree) == Elements(queue) + {entry} && entry !in Elements(queue)
      requires Listed(index.keyCompare, log, queue)
      modifies index, index.sentinel, Nodes(index.tree)
      ensures Consistent()
    {
      index.Delete(entry);
    }

    method CountDown(ghost n: nat)
      requires Consistent() && size == n % WORD && n == |queue| + 1 && cap < WORD
      modifies `size
      ensures Counted()
    {
      CountingDown(WORD, n);
      size := (size - 1) % WORD;
    }

    /** Adds an entry under a missing key, and evicts the entry unused for longest when that
        makes one too many; the destructor gets it. */
    method Add(entry: Node) returns (evicted: Node?)
      requires Valid() && entry !in queue && entry != index.sentinel && Absent(index.keyCompare, queue, entry.key)
      modifies this, index, index.sentinel, Nodes(index.tree), entry
      ensures Valid() && queue == Added(cap, old(queue), entry) && log == old(log) + [entry]
      ensures evicted == null <==> (old(|queue|) + 1) % WORD <= cap
      ensures evicted != null ==> evicted in [entry] + old(queue) && OlderThanAll(log, evicted, queue)
    {
      AddedBound(cap, queue, entry);
      AddInner(entry);
      evicted := Trim();
    }

    /** Evicts when there is one entry too many. */
    method Trim() returns (evicted: Node?)
      requires Counted() && queue != []
      modifies this, index, index.sentinel, Nodes(index.tree)
      ensures Counted() && queue == Trimmed(cap, old(queue)) && log == old(log)
      ensures evicted == null <==> old(|queue|) % WORD <= cap
      ensures evicted != null ==> evicted in old(queue) && OlderThanAll(log, evicted, queue)
    {
      if size > cap {
        evicted := Evict();
      } else {
        evicted := null;
      }
    }

    /** Deletes the end of the queue, which the destructor gets. */
    method Evict() returns (evicted: Node)
      requires Counted() && queue != []
      modifies this, index, index.sentinel, Nodes(index.tree)
      ensures Counted() && queue == old(queue)[..|old(queue)| - 1] && log == old(log)
      ensures evicted in old(queue) && OlderThanAll(log, evicted, queue)
    {
      LastIsOldest(log, queue);
      evicted := Delete(queue[|queue| - 1]);
    }

    method Fetch(key: int) returns (r: Node?)
      requires Valid()
      modifies this
      ensures Valid()
      ensures r == null <==> Absent(index.keyCompare, old(queue), key)
      ensures r == null ==> queue == old(queue) && log == old(log)
      ensures r != null ==> r in old(queue) && index.keyCompare(key, r.key) == 0
      ensures r != null ==> queue == Touched(old(queue), r) && log == old(log) + [r]
    {
      r := Lookup(key);
      if r != null {
        MoveToFront(r);
      }
    }

    method Lookup(key: int) returns (r: Node?)
      requires index.Valid() && Elements(queue) == Nodes(index.tree)
      ensures r == null <==> Absent(index.keyCompare, queue, key)
      ensures r != null ==> r in queue && r in Elements(queue) && index.keyCompare(key, r.key) == 0
    {
      r := index.Find(key);
      InorderNodes(index.tree);
      FoundOrAbsent(index.keyCompare, Inorder(index.tree), queue, key, r);
    }

    method MoveToFront(e: Node)
      requires Valid() && e in Elements(queue)
      modifies `queue, `log
      ensures Valid() && queue == Touched(old(queue), e) && log == old(log) + [e]
    {
      Requeue(e);
    }

    method Requeue(e: Node)
      requires ThreeWay(index.keyCompare) && Listed(index.keyCompare, log, queue) && e in Elements(queue)
      modifies `queue, `log
      ensures Listed(index.keyCompare, log, queue) && Elements(queue) == old(Elements(queue)) && |queue| == old(|queue|)
      ensures queue == Touched(old(queue), e) && log == old(log) + [e]
    {
      TouchedListed(index.keyCompare, log, queue, e);
      queue := Dropped(queue, e);
      queue := [e] + queue;
      log := log + [e];
    }

    /** How a cache is used: a fetch, and on a miss the addition of a new entry. */
    method Access(key: int) returns (r: Node, hit: bool)
      requires Valid()
      modifies this, index, index.sentinel, Nodes(index.tree)
      ensures Valid() && fresh(Nodes(index.tree) - old(Nodes(index.tree)))
      ensures hit <==> !Absent(index.keyCompare, old(queue), key)
      ensures if hit then r in old(queue) && queue == Touched(old(queue), r)
              else fresh(r) && queue == Added(cap, old(queue), r)
      ensures cap + 1 < WORD ==> Keys(queue) == Accessed(index.keyCompare, cap, old(Keys(queue)), key)
    {
      ghost var q := queue;
      var found := Fetch(key);
      hit := found != null;
      if found != null {
        r := found;
        HitIsAccess(index.keyCompare, cap, q, key, r);
      } else {
        r := AddNew(key);
        if cap + 1 < WORD { MissIsAccess(index.keyCompare, cap, q, r); }
      }
    }

    method AddNew(key: int) returns (e: Node)
      requires Valid() && Absent(index.keyCompare, queue, key)
      modifies this, index, index.sentinel, Nodes(index.tree)
      ensures Valid() && fresh(e) && e.key == key && queue == Added(cap, old(queue), e)
      ensures Nodes(index.tree) <= old(Nodes(index.tree)) + {e}
    {
      e := new Node(key);
      assert e !in queue;
      AddedElements(cap, queue, e);
      var evicted := Add(e);
    }
  }

  lemma FoundOrAbsent(cmp: (int, int) -> int, s: seq<Node>, q: seq<Node>, key: int, r: Node?)
    requires Elements(s) == Elements(q)
    requires r != null ==> r in s && cmp(key, r.key) == 0
    requires r == null ==> forall n :: n in s ==> cmp(key, n.key) != 0
    ensures r == null <==> Absent(cmp, q, key)
    ensures r != null ==> r in Elements(q) && r in q
  {
    if r == null {
      forall i | 0 <= i < |q| ensures cmp(key, q[i].key) != 0 {
        assert q[i] in Elements(q);
      }
    } else {
      assert r in Elements(s);
      var i :| 0 <= i < |q| && q[i] == r;
    }
  }

  // ---- Inclusion ---------------------------------------------------------------------------

  /** The first position whose key equals `key`, or the length. */
  ghost function Position(cmp: (int, int) -> int, q: seq<int>, key: int): (i: nat)
    ensures i <= |q| && (i < |q| ==> cmp(key, q[i]) == 0)
    ensures forall j :: 0 <= j < i ==> cmp(key, q[j]) != 0
  {
    if q == [] || cmp(key, q[0]) == 0 then 0 else 1 + Position(cmp, q[1..], key)
  }

  function MovedToFront(q: seq<int>, i: nat): seq<int>
    requires i < |q|
  {
    [q[i]] + q[..i] + q[i + 1..]
  }

  function PutInFront(cap: nat, q: seq<int>, key: int): seq<int> {
    if |q| < cap then [key] + q else ([key] + q)[..|q|]
  }

  /** The keys of a queue after a fetch that adds the key on a miss. */
  ghost function Accessed(cmp: (int, int) -> int, cap: nat, q: seq<int>, key: int): seq<int> {
    var i := Position(cmp, q, key);
    if i < |q| then MovedToFront(q, i) else PutInFront(cap, q, key)
  }

  /** The queue, as keys, that a trace of accesses leaves in an empty cache. */
  ghost function Run(cmp: (int, int) -> int, cap: nat, trace: seq<int>): seq<int> {
    if trace == [] then [] else Accessed(cmp, cap, Run(cmp, cap, trace[..|trace| - 1]), trace[|trace| - 1])
  }

  ghost function Keys(q: seq<Node>): seq<int> {
    seq(|q|, i requires 0 <= i < |q| => q[i].key)
  }

  lemma KeysToFront(q: seq<Node>, i: nat)
    requires i < |q|
    ensures Keys([q[i]] + (q[..i] + q[i + 1..])) == MovedToFront(Keys(q), i)
  {}

  lemma PositionOf(cmp: (int, int) -> int, q: seq<Node>, key: int, i: nat)
    requires ThreeWay(cmp) && KeysDiffer(cmp, q) && i < |q| && cmp(key, q[i].key) == 0
    ensures Position(cmp, Keys(q), key) == i
  {
    var p := Position(cmp, Keys(q), key);
    assert Keys(q)[i] == q[i].key;
    if p < i { SameClass(cmp, q[p].key, key, q[i].key); }
  }

  /** Fetching what is there is an access. */
  lemma HitIsAccess(cmp: (int, int) -> int, cap: nat, q: seq<Node>, key: int, r: Node)
    requires ThreeWay(cmp) && NoTwice(q) && KeysDiffer(cmp, q) && r in q && cmp(key, r.key) == 0
    ensures Keys(Touched(q, r)) == Accessed(cmp, cap, Keys(q), key)
  {
    var i :| 0 <= i < |q| && q[i] == r;
    DroppedAt(q, i);
    PositionOf(cmp, q, key, i);
    KeysToFront(q, i);
  }

  /** Adding what is missing is an access. */
  lemma MissIsAccess(cmp: (int, int) -> int, cap: nat, q: seq<Node>, e: Node)
    requires Absent(cmp, q, e.key) && |q| <= cap < WORD && |q| + 1 < WORD
    ensures Keys(Added(cap, q, e)) == Accessed(cmp, cap, Keys(q), e.key)
  {
    AddedWithinCap(cap, q, e);
    assert Position(cmp, Keys(q), e.key) == |q|;
    assert Keys([e] + q) == [e.key] + Keys(q);
  }

  lemma SameClass(cmp: (int, int) -> int, a: int, b: int, c: int)
    requires ThreeWay(cmp) && (cmp(a, b) == 0 || cmp(b, a) == 0) && cmp(b, c) == 0
    ensures cmp(a, c) == 0
  {
    Laws(cmp, a, b, c);
    Laws(cmp, c, b, a);
    Laws(cmp, b, a, c);
    Laws(cmp, c, a, b);
    Laws(cmp, b, c, a);
    Laws(cmp, a, c, a);
  }

  /** `s` is a prefix of `t`, up to equality of keys. */
  ghost predicate Leads(cmp: (int, int) -> int, s: seq<int>, t: seq<int>) {
    |s| <= |t| && forall i :: 0 <= i < |s| ==> cmp(s[i], t[i]) == 0
  }

  lemma SamePosition(cmp: (int, int) -> int, s: seq<int>, t: seq<int>, key: int)
    requires ThreeWay(cmp) && Leads(cmp, s, t)
    ensures var i, j := Position(cmp, s, key), Position(cmp, t, key); if j < |s| then i == j else i == |s|
  {
    var i, j := Position(cmp, s, key), Position(cmp, t, key);
    if i < |s| { SameClass(cmp, key, s[i], t[i]); }
    if j < |s| {
      Laws(cmp, t[j], s[j], t[j]);
      SameClass(cmp, key, t[j], s[j]);
    }
  }

  lemma BothHit(cmp: (int, int) -> int, s: seq<int>, t: seq<int>, i: nat)
    requires Leads(cmp, s, t) && i < |s|
    ensures Leads(cmp, MovedToFront(s, i), MovedToFront(t, i))
  {}

  lemma OnlyLargeHits(cmp: (int, int) -> int, s: seq<int>, t: seq<int>, key: int, j: nat)
    requires Leads(cmp, s, t) && |s| <= j < |t| && cmp(key, t[j]) == 0
    ensures Leads(cmp, PutInFront(|s|, s, key), MovedToFront(t, j))
  {}

  lemma BothMiss(cmp: (int, int) -> int, small: nat, large: nat, s: seq<int>, t: seq<int>, key: int)
    requires Leads(cmp, s, t) && cmp(key, key) == 0 && |t| <= large && |s| <= small <= large
    requires |s| == if |t| < small then |t| else small
    ensures Leads(cmp, PutInFront(small, s, key), PutInFront(large, t, key))
  {}

  lemma AccessedLeads(cmp: (int, int) -> int, small: nat, large: nat, s: seq<int>, t: seq<int>, key: int)
    requires ThreeWay(cmp) && small <= large && Leads(cmp, s, t)
    requires |t| <= large && |s| == if |t| < small then |t| else small
    ensures
      var s', t' := Accessed(cmp, small, s, key), Accessed(cmp, large, t, key);
      Leads(cmp, s', t') && |t'| <= large && |s'| == if |t'| < small then |t'| else small
  {
    SamePosition(cmp, s, t, key);
    Laws(cmp, key, key, key);
    var j := Position(cmp, t, key);
    if j < |s| {
      BothHit(cmp, s, t, j);
    } else if j < |t| {
      OnlyLargeHits(cmp, s, t, key, j);
    } else {
      BothMiss(cmp, small, large, s, t, key);
    }
  }

  /** Inclusion: on any trace, the queue of a cache is the front of the queue of a larger one. */
  lemma {:induction false} Inclusion(cmp: (int, int) -> int, small: nat, large: nat, trace: seq<int>)
    requires ThreeWay(cmp) && small <= large
    ensures
      var s, t := Run(cmp, small, trace), Run(cmp, large, trace);
      Leads(cmp, s, t) && |t| <= large && |s| == if |t| < small then |t| else small
  {
    if trace == [] {
    } else {
      var before, key := trace[..|trace| - 1], trace[|trace| - 1];
      Inclusion(cmp, small, large, before);
      AccessedLeads(cmp, small, large, Run(cmp, small, before), Run(cmp, large, before), key);
    }
  }

  /** How many accesses of a trace miss. */
  ghost function Misses(cmp: (int, int) -> int, cap: nat, trace: seq<int>): nat {
    if trace == [] then 0
    else
      var before, key := trace[..|trace| - 1], trace[|trace| - 1];
      var q := Run(cmp, cap, before);
      Misses(cmp, cap, before) + if Position(cmp, q, key) < |q| then 0 else 1
  }

  /** So on no trace does a larger cache miss more often. */
  lemma {:induction false} FewerMisses(cmp: (int, int) -> int, small: nat, large: nat, trace: seq<int>)
    requires ThreeWay(cmp) && small <= large
    ensures Misses(cmp, large, trace) <= Misses(cmp, small, trace)
  {
    if trace == [] {
    } else {
      var before, key := trace[..|trace| - 1], trace[|trace| - 1];
      FewerMisses(cmp, small, large, before);
      Inclusion(cmp, small, large, before);
      SamePosition(cmp, Run(cmp, small, before), Run(cmp, large, before), key);
    }
  }

  lemma AbsentPosition(cmp: (int, int) -> int, q: seq<Node>, key: int)
    ensures Absent(cmp, q, key) <==> Position(cmp, Keys(q), key) == |q|
  {
    var p := Position(cmp, Keys(q), key);
    if p < |q| {
      assert cmp(key, q[p].key) == 0;
    } else {
      forall i | 0 <= i < |q| ensures cmp(key, q[i].key) != 0 {
        assert Keys(q)[i] == q[i].key;
      }
    }
  }

  // ---- Whole runs of a cache ---------------------------------------------------------------

  /** `c` is what the accesses of `trace` make of an empty cache, and `misses` of them missed. */
  ghost predicate Ran(c: Cache, cmp: (int, int) -> int, cap: nat, trace: seq<int>, misses: nat)
    reads c, c.index, c.index.sentinel, Nodes(c.index.tree)
  {
    && c.Valid() && c.cap == cap && c.index.keyCompare == cmp
    && Keys(c.queue) == Run(cmp, cap, trace) && misses == Misses(cmp, cap, trace)
  }

  /** One more access. */
  method AccessNext(c: Cache, cmp: (int, int) -> int, cap: nat, trace: seq<int>, i: nat, misses: nat)
    returns (misses': nat)
    requires i < |trace| && cap + 1 < WORD && Ran(c, cmp, cap, trace[..i], misses)
    modifies c, c.index, c.index.sentinel, Nodes(c.index.tree)
    ensures Ran(c, cmp, cap, trace[..i + 1], misses')
    ensures fresh(Nodes(c.index.tree) - old(Nodes(c.index.tree)))
  {
    assert trace[..i + 1][..i] == trace[..i];
    AbsentPosition(cmp, c.queue, trace[i]);
    var entry, hit := c.Access(trace[i]);
    misses' := if hit then misses else misses + 1;
  }

  /** A cache below the largest capacity runs as the plain recency list does. */
  method Replay(cmp: (int, int) -> int, cap: nat, trace: seq<int>) returns (c: Cache, misses: nat)
    requires ThreeWay(cmp) && cap + 1 < WORD
    ensures fresh(c) && fresh(c.index) && fresh(c.index.sentinel) && fresh(Nodes(c.index.tree))
    ensures Ran(c, cmp, cap, trace, misses)
  {
    c := new Cache(cap, cmp);
    misses := 0;
    var i := 0;
    while i < |trace|
      invariant i <= |trace| && Ran(c, cmp, cap, trace[..i], misses)
      invariant fresh(c) && fresh(c.index) && fresh(c.index.sentinel) && fresh(Nodes(c.index.tree))
    {
      misses := AccessNext(c, cmp, cap, trace, i, misses);
      i := i + 1;
    }
    assert trace[..i] == trace;
  }

  /** Inclusion of caches: after any trace a cache holds, key by key, the front of what a larger
      one holds, and has missed at least as often. */
  method ReplayBoth(cmp: (int, int) -> int, small: nat, large: nat, trace: seq<int>)
    returns (a: Cache, b: Cache, missesA: nat, missesB: nat)
    requires ThreeWay(cmp) && small <= large && large + 1 < WORD
    ensures Ran(a, cmp, small, trace, missesA) && Ran(b, cmp, large, trace, missesB)
    ensures Leads(cmp, Keys(a.queue), Keys(b.queue)) && missesB <= missesA
    ensures b.size <= large && a.size == if b.size < small then b.size else small
  {
    a, missesA := Replay(cmp, small, trace);
    b, missesB := Replay(cmp, large, trace);
    Inclusion(cmp, small, large, trace);
    FewerMisses(cmp, small, large, trace);
    a.WithinCapacity();
    b.WithinCapacity();
  }
}
