/** p7r/p7r_stack_allocator.c with the cascade of p7r/p7r_stack_hint.c: two master zones and a
    list of slave zones that come and go. */
module StackAllocator {
  import opened Lists

  const POLICY_PRUDENT := 0       // also the default policy
  const POLICY_EDEN := 1
  const SOURCE_DEFAULT := 0
  const SOURCE_SHORT_TERM := 1

  // ---- Arithmetic of whole stacks --------------------------------------------------------

  lemma Distribute(a: nat, n: nat)
    ensures a * (n + 1) == a * n + a
  {}

  lemma DistributeSum(a: nat, m: nat, n: nat)
    ensures a * (m + n) == a * m + a * n
  {}

  lemma {:induction false} Monotone(a: nat, m: nat, n: nat)
    requires m <= n
    ensures a * m <= a * n
  {
    if m == n {
    } else {
      Monotone(a, m, n - 1);
      Distribute(a, n - 1);
    }
  }

  lemma Cancel(a: nat, m: nat, n: nat)
    requires a > 0
    ensures a * m == a * n <==> m == n
    ensures a * m < a * n <==> m < n
  {
    if m < n {
      Monotone(a, m + 1, n);
      Distribute(a, m);
    } else if n < m {
      Monotone(a, n + 1, m);
      Distribute(a, n);
    }
  }

  /** `adjust_capacity`. */
  function AdjustCapacity(capacity: nat, total: nat): (r: nat)
    requires total > 0
    ensures r >= capacity && r % total == 0
    ensures forall n :: n >= capacity && n % total == 0 ==> r <= n
  {
    if capacity % total != 0 then
      RoundedUp(capacity, total);
      capacity - capacity % total + total
    else capacity
  }

  /** A multiple above `total * q` is at least the next one. */
  lemma NextMultiple(total: nat, q: nat, n: nat)
    requires total > 0 && n % total == 0 && n > total * q
    ensures n >= total * (q + 1)
  {
    var k := n / total;
    assert n == total * k;
    Cancel(total, q, k);
    Monotone(total, q + 1, k);
  }

  lemma RoundedUp(capacity: nat, total: nat)
    requires total > 0 && capacity % total != 0
    ensures (capacity - capacity % total + total) % total == 0
    ensures forall n :: n >= capacity && n % total == 0 ==> capacity - capacity % total + total <= n
  {
    var q := capacity / total;
    assert capacity == total * q + capacity % total;
    Distribute(total, q);
    WholeMultiple(total, q + 1);
    forall n | n >= capacity && n % total == 0 ensures total * (q + 1) <= n {
      NextMultiple(total, q, n);
    }
  }

  lemma WholeMultiple(a: nat, n: nat)
    requires a > 0
    ensures (a * n) % a == 0 && (a * n) / a == n
  {
    assert a * n == n * a + 0;
    var q, r := (a * n) / a, (a * n) % a;
    assert a * n == a * q + r;
    if q < n { Monotone(a, q + 1, n); Distribute(a, q); } else if q > n { Monotone(a, n + 1, q); Distribute(a, n); }
  }

  /** A stack is its two extra pages and its user's pages; `n` strides make `n` stacks' pages. */
  lemma Strides(pageBytes: nat, perStack: nat, k: nat, n: nat)
    requires perStack > 2
    ensures k * (perStack * pageBytes) + 2 * pageBytes + pageBytes * (perStack - 2) == (k + 1) * (perStack * pageBytes)
    ensures n * (perStack * pageBytes) == (perStack * n) * pageBytes
  {
    var stride := perStack * pageBytes;
    assert 2 * pageBytes + pageBytes * (perStack - 2) == stride;
    assert (k + 1) * stride == k * stride + stride;
  }

  // ---- Stacks and the zones they are carved from -------------------------------------------

  /** `struct p7r_stack_metamark`, at the first byte of its stack. */
  class Stack {
    const provider: Provider
    const base: nat
    const redZone: nat
    const content: nat

    constructor (provider: Provider, base: nat, pageBytes: nat)
      ensures this.provider == provider && this.base == base
      ensures redZone == base + pageBytes && content == base + 2 * pageBytes
    {
      this.provider, this.base, redZone, content := provider, base, base + pageBytes, base + pageBytes * 2;
    }
  }

  /** `struct p7r_stack_page_provider`.  `size`, `capacity` and `perStack` count pages. */
  class Provider {
    const slave: bool
    const capacity: nat
    const perStack: nat
    const pageBytes: nat
    const zone: nat
    var size: nat
    var pages: seq<Stack>
    ghost var stacks: seq<Stack>    // every stack of the zone, by address

    ghost predicate Valid()
      reads this
    {
      Sound() && size == perStack * |pages|
    }

    /** The free list is made of the zone's stacks; `size` is left out. */
    ghost predicate Sound()
      reads this
    {
      && perStack > 0 && capacity == perStack * |stacks|
      && NoTwice(stacks) && NoTwice(pages) && Elements(pages) <= Elements(stacks)
      && forall i :: 0 <= i < |stacks| ==> stacks[i].provider == this
    }

    /** The stacks handed out. */
    ghost function Out(): set<Stack>
      reads this
    {
      Elements(stacks) - Elements(pages)
    }

    /** Where stack `k` of the zone lies: its mark, its red zone and its content, page by page. */
    ghost predicate CarvedAt(k: nat)
      requires k < |stacks|
      reads `stacks
    {
      && stacks[k].base == zone + k * (perStack * pageBytes)
      && stacks[k].redZone == stacks[k].base + pageBytes
      && stacks[k].content == stacks[k].redZone + pageBytes
    }

    /** The zone is carved as the constructor carves it. */
    ghost predicate Carved()
      reads `stacks
    {
      forall k :: 0 <= k < |stacks| ==> CarvedAt(k)
    }

    /** The first address past the zone. */
    function ZoneEnd(): nat { zone + capacity * pageBytes }

    constructor (slave: bool, capacity: nat, perStack: nat, pageBytes: nat, zone: nat)
      requires perStack > 0 && capacity % perStack == 0
      ensures Valid() && fresh(Elements(stacks)) && Out() == {}
      ensures size == capacity && pages == stacks && |stacks| == capacity / perStack
      ensures this.slave == slave && this.capacity == capacity && this.perStack == perStack
      ensures this.pageBytes == pageBytes && this.zone == zone
      ensures Carved()
    {
      this.slave, this.capacity, this.perStack, this.pageBytes, this.zone := slave, capacity, perStack, pageBytes, zone;
      size := capacity;
      pages, stacks := [], [];
      new;
      var initialized, cursor := 0, zone;
      while initialized < capacity
        invariant this.capacity == capacity && size == capacity && pages == stacks
        invariant this.perStack == perStack && this.pageBytes == pageBytes && this.zone == zone && this.slave == slave
        invariant initialized == perStack * |pages| && cursor == zone + |pages| * (perStack * pageBytes)
        invariant |pages| <= capacity / perStack
        invariant NoTwice(pages) && fresh(Elements(pages))
        invariant forall i :: 0 <= i < |stacks| ==> stacks[i].provider == this && CarvedAt(i)
      {
        Distribute(perStack, |pages|);
        Distribute(perStack * pageBytes, |pages|);
        Cancel(perStack, |pages|, capacity / perStack);
        var mark := new Stack(this, cursor, pageBytes);
        assert mark !in Elements(pages);
        pages := pages + [mark];
        stacks := pages;
        initialized := initialized + perStack;
        cursor := cursor + perStack * pageBytes;
      }
      Cancel(perStack, |pages|, capacity / perStack);
    }

    /** `p7r_stack_page_allocate`: the first free stack, if any. */
    method Allocate() returns (r: Stack?)
      requires Valid()
      modifies `size, `pages
      ensures Valid()
      ensures r == null <==> old(size) == 0
      ensures r == null ==> size == old(size) && pages == old(pages)
      ensures r != null ==> r == old(pages)[0] && r.provider == this && pages == old(pages)[1..]
      ensures r != null ==> r !in old(Out()) && Out() == old(Out()) + {r} && size == old(size) - perStack
    {
      Cancel(perStack, 0, |pages|);
      if size == 0 { return null; }
      r := pages[0];
      assert r in Elements(pages);
      ghost var i :| 0 <= i < |stacks| && stacks[i] == r;
      Distribute(perStack, |pages| - 1);
      pages := pages[1..];
      size := size - perStack;
      assert old(pages) == [r] + pages;
      assert Elements(old(pages)) == {r} + Elements(pages);
    }

    /** A freed stack goes to the front of the free list; `size` follows later. */
    method PutFirst(mark: Stack)
      requires Sound() && mark in Out()
      modifies `pages
      ensures Sound() && pages == [mark] + old(pages) && Out() == old(Out()) - {mark}
    {
      pages := [mark] + pages;
      assert Elements(pages) == {mark} + old(Elements(pages));
    }

    /** `stack_size_of`: the bytes of a stack that are its user's. */
    function StackSize(): nat
      requires perStack > 2
    {
      pageBytes * (perStack - 2)
    }

    /** The stacks tile the zone: mark page, red-zone page and content follow one another, and
        each content ends where the next stack, or the zone, does. */
    lemma Tiles(k: nat)
      requires Valid() && Carved() && perStack > 2 && k < |stacks|
      ensures stacks[k].redZone == stacks[k].base + pageBytes && stacks[k].content == stacks[k].redZone + pageBytes
      ensures stacks[k].content + StackSize() == if k + 1 < |stacks| then stacks[k + 1].base else ZoneEnd()
    {
      assert CarvedAt(k);
      Strides(pageBytes, perStack, k, |stacks|);
      if k + 1 < |stacks| { assert CarvedAt(k + 1); }
    }

    /** Stacks are disjoint: each ends before any later one begins, within the zone. */
    lemma {:induction false} StacksApart(i: nat, j: nat)
      requires Valid() && Carved() && perStack > 2 && i < j <= |stacks|
      ensures stacks[i].content + StackSize() <= if j < |stacks| then stacks[j].base else ZoneEnd()
      decreases j
    {
      Tiles(j - 1);
      if i < j - 1 { StacksApart(i, j - 1); }
    }
  }

  // ---- The allocator -----------------------------------------------------------------------

  /** What mmap gives to one provider it does not give to another. */
  ghost predicate ZonesApart(ps: set<Provider>) {
    forall p, q :: p in ps && q in ps && p != q ==> p.ZoneEnd() <= q.zone || q.ZoneEnd() <= p.zone
  }

  /** The `bytes` from `zone` on overlap no zone in use. */
  ghost predicate ZoneFree(ps: set<Provider>, zone: nat, bytes: nat) {
    forall p :: p in ps ==> ClearOf(p, zone, bytes)
  }

  predicate ClearOf(p: Provider, zone: nat, bytes: nat) {
    p.ZoneEnd() <= zone || zone + bytes <= p.zone
  }

  /** Slaves with free stacks precede exhausted ones, and each has a stack out.  Slave `p` is
      one whose `size` lags behind: it has a free stack whatever it says. */
  ghost predicate InOrder(t: seq<Provider>, p: Provider?)
    reads t
  {
    && (forall i, j :: 0 <= i < j < |t| && (t[j].size > 0 || t[j] == p) ==> t[i].size > 0 || t[i] == p)
    && (forall i :: 0 <= i < |t| && t[i] != p ==> t[i].size < t[i].capacity)
  }

  lemma RemovedInOrder(s: seq<Provider>, i: nat)
    requires i < |s| && InOrder(s, null)
    ensures InOrder(s[..i] + s[i + 1..], null)
  {
    var t := s[..i] + s[i + 1..];
    forall j | 0 <= j < |t| ensures t[j] == s[if j < i then j else j + 1] {}
  }

  lemma FreedInOrder(t: seq<Provider>, p: Provider)
    requires InOrder(t, null) && p !in Elements(t)
    ensures InOrder(t, p) && InOrder([p] + t, p)
  {
    var u := [p] + t;
    forall i, j | 0 <= i < j < |u| && (u[j].size > 0 || u[j] == p) ensures u[i].size > 0 || u[i] == p {
      if i > 0 { assert u[i] == t[i - 1] && u[j] == t[j - 1]; }
    }
  }

  /** The slaves after the first of them gave a stack. */
  ghost function AfterTake(s: seq<Provider>, exhausted: bool): seq<Provider>
    requires s != []
  {
    if exhausted then s[1..] + [s[0]] else s
  }

  /** The slaves after `p` got a stack back. */
  ghost function AfterFree(s: seq<Provider>, p: Provider, exhausted: bool, dying: bool): seq<Provider> {
    if dying then Dropped(s, p) else if exhausted then [p] + Dropped(s, p) else s
  }

  class Allocator {
    const longTerm: Provider
    const shortTerm: Provider
    const slavePages: nat
    const perStack: nat
    const pageBytes: nat
    var slaves: seq<Provider>
    var nSlaves: nat
    ghost var out: set<Stack>       // the stacks handed out

    ghost function Providers(): set<Provider>
      reads this
    {
      {longTerm, shortTerm} + Elements(slaves)
    }

    /** A provider's books agree with what was handed out, and its zone is carved. */
    ghost predicate Accounted(p: Provider)
      reads this, p
    {
      p.Valid() && Fits(p) && p.Out() == set s | s in out && s.provider == p
    }

    ghost predicate Fits(p: Provider)
      reads p`stacks
    {
      p.perStack == perStack && p.pageBytes == pageBytes && p.Carved()
    }

    /** Everything but the order of the slaves. */
    ghost predicate Books()
      reads this, Providers()
    {
      && perStack > 2 && slavePages > 0 && slavePages % perStack == 0
      && longTerm != shortTerm && !longTerm.slave && !shortTerm.slave
      && nSlaves == |slaves| && NoTwice(slaves) && (forall p :: p in Elements(slaves) ==> p.slave)
      && (forall p :: p in Providers() ==> Accounted(p))
      && (forall s :: s in out ==> s.provider in Providers())
      && ZonesApart(Providers())
    }

    ghost predicate Ordered()
      reads this, Elements(slaves)
    {
      InOrder(slaves, null)
    }

    ghost predicate Valid()
      reads this, Providers()
    {
      Books() && Ordered()
    }

    /** `p7r_stack_allocator_init`, when both zones could be mapped. */
    constructor (longPages: nat, shortPages: nat, slavePages: nat, total: nat, pageBytes: nat,
                 longZone: nat, shortZone: nat)
      requires total > 2 && slavePages > 0
      requires longZone + AdjustCapacity(longPages, total) * pageBytes <= shortZone
        || shortZone + AdjustCapacity(shortPages, total) * pageBytes <= longZone
      ensures Valid() && out == {} && slaves == []
      ensures perStack == total && this.pageBytes == pageBytes && this.slavePages == AdjustCapacity(slavePages, total)
      ensures longTerm.size == longTerm.capacity == AdjustCapacity(longPages, total) && longTerm.zone == longZone
      ensures shortTerm.size == shortTerm.capacity == AdjustCapacity(shortPages, total) && shortTerm.zone == shortZone
      ensures fresh(longTerm) && fresh(shortTerm)
    {
      var slaveCapacity := AdjustCapacity(slavePages, total);
      this.slavePages, perStack, this.pageBytes, slaves, nSlaves, out := slaveCapacity, total, pageBytes, [], 0, {};
      longTerm := new Provider(false, AdjustCapacity(longPages, total), total, pageBytes, longZone);
      shortTerm := new Provider(false, AdjustCapacity(shortPages, total), total, pageBytes, shortZone);
    }

    /** Hands out the first free stack of one provider. */
    method Take(p: Provider) returns (r: Stack?)
      requires Books() && p in Providers()
      modifies p`size, p`pages, `out
      ensures Books()
      ensures r == null <==> old(p.size) == 0
      ensures r == null ==> p.size == old(p.size) && p.pages == old(p.pages) && out == old(out)
      ensures r != null ==> p.size == old(p.size) - perStack && r.provider == p
      ensures r != null ==> r !in old(out) && out == old(out) + {r}
    {
      assert Accounted(p);
      r := p.Allocate();
      if r != null {
        assert r !in out;
        forall q | q in Providers() && q != p ensures Accounted(q) { assert old(Accounted(q)); }
        Record(r, p);
      }
    }

    /** A stack that its provider has handed out is entered in the books. */
    ghost method Record(r: Stack, p: Provider)
      requires BooksExcept(p, nSlaves) && p in Providers() && p.Valid() && Fits(p) && r.provider == p
      requires p.Out() == (set s | s in out && s.provider == p) + {r}
      modifies `out
      ensures Books() && out == old(out) + {r}
    {
      out := out + {r};
      forall q | q in Providers() ensures Accounted(q) { assert q != p ==> old(Accounted(q)); }
    }

    /** The search of the fallback: it ends at the first slave or finds none. */
    method FindSlave() returns (t: Provider?)
      requires Valid()
      ensures t == if slaves != [] && slaves[0].size > 0 then slaves[0] else null
      ensures t == null ==> forall i :: 0 <= i < |slaves| ==> slaves[i].size == 0
    {
      var i := 0;
      while i < |slaves|
        invariant i <= |slaves| && forall j :: 0 <= j < i ==> slaves[j].size == 0
      {
        if slaves[i].size != 0 { return slaves[i]; }
        i := i + 1;
      }
      t := null;
    }

    /** An address that mmap may return for a new slave. */
    ghost predicate Mappable(zone: nat)
      reads this
    {
      ZoneFree(Providers(), zone, slavePages * pageBytes)
    }

    /** What mmap knows: whether `zone` may be the address of a new slave. */
    method MayMap(zone: nat) returns (b: bool)
      requires Books()
      ensures b <==> Mappable(zone)
    {
      var bytes := slavePages * pageBytes;
      b := ClearOf(longTerm, zone, bytes) && ClearOf(shortTerm, zone, bytes);
      var i := 0;
      while i < |slaves|
        invariant i <= |slaves|
        invariant b <==> ZoneFree({longTerm, shortTerm} + Elements(slaves[..i]), zone, bytes)
      {
        assert Elements(slaves[..i + 1]) == Elements(slaves[..i]) + {slaves[i]};
        b := b && ClearOf(slaves[i], zone, bytes);
        i := i + 1;
      }
      assert slaves[..i] == slaves;
    }

    /** Maps a new slave zone and puts it first. */
    method AddSlave(zone: nat) returns (t: Provider)
      requires Books() && Mappable(zone)
      modifies `slaves, `nSlaves
      ensures Books() && fresh(t) && slaves == [t] + old(slaves)
      ensures t.size == t.capacity == slavePages
    {
      t := new Provider(true, slavePages, perStack, pageBytes, zone);
      assert t !in Elements(slaves);
      slaves := [t] + slaves;
      nSlaves := nSlaves + 1;
      forall q | q in Providers() ensures Accounted(q) {
        assert q != t ==> old(Accounted(q));
      }
    }

    /** `p7r_slave_allocation_adjust`: an exhausted slave goes to the end of the list. */
    method SlaveAllocationAdjust(t: Provider)
      requires Books() && t in slaves
      modifies `slaves
      ensures Books() && slaves == if t.size == 0 then Dropped(old(slaves), t) + [t] else old(slaves)
    {
      if t.size == 0 {
        Removed(slaves, t);
        Appended(Dropped(slaves, t), t);
        assert t !in Elements(Dropped(slaves, t));
        slaves := Dropped(slaves, t);
        slaves := slaves + [t];
        assert Elements(slaves) == old(Elements(slaves));
        forall q | q in Providers() ensures Accounted(q) { assert old(Accounted(q)); }
      }
    }

    /** Only the first slave may be in the wrong place. */
    ghost predicate OrderedBehindHead()
      reads this, Elements(slaves)
    {
      && (forall i, j :: 0 < i < j < |slaves| && slaves[j].size > 0 ==> slaves[i].size > 0)
      && (forall i :: 0 < i < |slaves| ==> slaves[i].size < slaves[i].capacity)
    }

    /** The slave at the head of the list gives a stack. */
    method TakeFromHead(t: Provider) returns (r: Stack)
      requires Books() && OrderedBehindHead() && slaves != [] && slaves[0] == t && t.size > 0
      modifies `slaves, `out, t`size, t`pages
      ensures Valid() && Elements(slaves) == old(Elements(slaves)) && slaves == AfterTake(old(slaves), t.size == 0)
      ensures r !in old(out) && out == old(out) + {r} && r.provider == t
    {
      ThePages(t);
      r := Take(t);
      Demote(t);
    }

    lemma ThePages(p: Provider)
      requires Books() && p in Providers()
      ensures p.size <= p.capacity && (p.size > 0 ==> p.size >= perStack)
      ensures |p.Out()| == |p.stacks| - |p.pages|
      ensures p.size == p.capacity <==> p.Out() == {}
    {
      assert Accounted(p);
      PagesWithin(p.stacks, p.pages);
      Monotone(perStack, |p.pages|, |p.stacks|);
      Cancel(perStack, |p.pages|, |p.stacks|);
      Cancel(perStack, 0, |p.pages|);
      if |p.pages| > 0 { Monotone(perStack, 1, |p.pages|); }
    }

    method Demote(t: Provider)
      requires Books() && OrderedBehindHead() && slaves != [] && slaves[0] == t && t.size < t.capacity
      modifies `slaves
      ensures Valid() && Elements(slaves) == old(Elements(slaves)) && slaves == AfterTake(old(slaves), t.size == 0)
    {
      ghost var s := slaves;
      HeadMoved(s, t);
      SlaveAllocationAdjust(t);
      assert s == [t] + s[1..];
    }

    lemma HeadMoved(s: seq<Provider>, t: Provider)
      requires s != [] && s[0] == t
      ensures Dropped(s, t) + [t] == s[1..] + [t]
    {}

    /** `p7r_stack_page_allocate_fallback`, with the zone that mmap would return.  `made` says
        that a slave had to be made. */
    method AllocateFallback(zone: nat) returns (r: Stack, ghost made: bool)
      requires Valid() && Mappable(zone)
      modifies this, slaves
      ensures Valid() && r !in old(out) && out == old(out) + {r}
      ensures made <==> old(slaves) == [] || old(slaves[0].size) == 0
      ensures made <==> old(SlavesExhausted())
      ensures made ==> fresh(r.provider) && slaves == AfterTake([r.provider] + old(slaves), r.provider.size == 0)
      ensures !made ==> r.provider in old(slaves) && slaves == AfterTake(old(slaves), r.provider.size == 0)
      ensures r.provider.slave && Elements(slaves) == old(Elements(slaves)) + if made then {r.provider} else {}
    {
      var t;
      t, made := FindOrAddSlave(zone);
      assert t in Elements(slaves);
      r := TakeFromHead(t);
    }

    /** The first half of the fallback: the slave that will give the stack heads the list. */
    method FindOrAddSlave(zone: nat) returns (t: Provider, ghost made: bool)
      requires Valid() && Mappable(zone)
      modifies `slaves, `nSlaves
      ensures Books() && OrderedBehindHead() && slaves != [] && slaves[0] == t && t.size > 0
      ensures made <==> old(slaves) == [] || old(slaves[0].size) == 0
      ensures made <==> old(SlavesExhausted())
      ensures made ==> fresh(t) && slaves == [t] + old(slaves)
      ensures !made ==> slaves == old(slaves)
    {
      var found := FindSlave();
      made := found == null;
      if found == null {
        t := AddSlave(zone);
      } else {
        t := found;
      }
    }

    /** One master is asked for a stack. */
    method TakeFromMaster(p: Provider) returns (r: Stack?)
      requires Valid() && (p == longTerm || p == shortTerm)
      modifies `out, p`size, p`pages
      ensures Valid()
      ensures r == null <==> old(p.size) == 0
      ensures r == null ==> out == old(out) && p.size == 0
      ensures r != null ==> r !in old(out) && out == old(out) + {r} && r.provider == p
      ensures SlavesExhausted() == old(SlavesExhausted())
    {
      r := Take(p);
      assert forall i :: 0 <= i < |slaves| ==> slaves[i] in Elements(slaves) && slaves[i] != p;
    }

    /** The masters that the hintless policy tries, in order, are exhausted. */
    ghost predicate MastersExhausted(policy: nat)
      reads longTerm, shortTerm
    {
      && (policy == POLICY_PRUDENT ==> longTerm.size == 0)
      && (policy == POLICY_PRUDENT || policy == POLICY_EDEN ==> shortTerm.size == 0)
    }

    ghost predicate SlavesExhausted()
      reads this, Elements(slaves)
    {
      forall i :: 0 <= i < |slaves| ==> slaves[i].size == 0
    }

    /** `p7r_stack_allocate_hintless`: each case of the switch falls through to the next. */
    method AllocateHintless(policy: nat, zone: nat) returns (r: Stack)
      requires Valid() && Mappable(zone)
      modifies this, longTerm, shortTerm, slaves
      ensures Valid() && r !in old(out) && out == old(out) + {r}
      ensures fresh(r.provider) <==> old(MastersExhausted(policy) && SlavesExhausted())
      ensures Elements(slaves) == old(Elements(slaves)) + if fresh(r.provider) then {r.provider} else {}
      ensures policy == POLICY_PRUDENT && old(longTerm.size) > 0 ==> r.provider == longTerm
      ensures policy == POLICY_PRUDENT && old(longTerm.size) == 0 && old(shortTerm.size) > 0 ==> r.provider == shortTerm
      ensures policy == POLICY_EDEN && old(shortTerm.size) > 0 ==> r.provider == shortTerm
      ensures old(MastersExhausted(policy)) ==> r.provider.slave
    {
      var s := TakeByPolicy(policy);
      if s != null { return s; }
      ghost var made;
      r, made := AllocateFallback(zone);
    }

    /** The cases of the switch that ask a master. */
    method TakeByPolicy(policy: nat) returns (r: Stack?)
      requires Valid()
      modifies `out, longTerm, shortTerm
      ensures Valid() && SlavesExhausted() == old(SlavesExhausted())
      ensures r == null <==> old(MastersExhausted(policy))
      ensures r == null ==> out == old(out)
      ensures r != null ==> r !in old(out) && out == old(out) + {r}
      ensures r != null ==>
                r.provider == if policy == POLICY_PRUDENT && old(longTerm.size) > 0 then longTerm else shortTerm
    {
      if policy == POLICY_PRUDENT {
        r := TakeFromMaster(longTerm);
        if r != null { return; }
      }
      if policy == POLICY_PRUDENT || policy == POLICY_EDEN {
        r := TakeFromMaster(shortTerm);
      } else {
        r := null;
      }
    }

    ghost predicate SourcesExhausted(source: int)
      reads longTerm, shortTerm
    {
      longTerm.size == 0 && (source == SOURCE_SHORT_TERM ==> shortTerm.size == 0)
    }

    /** `p7r_stack_allocate`: by default the long-term zone, then slaves; for the short-term
        source the short-term zone first; nothing for any other type. */
    method AllocateFrom(source: int, zone: nat) returns (r: Stack?)
      requires Valid() && Mappable(zone)
      modifies this, longTerm, shortTerm, slaves
      ensures Valid() && (r == null <==> source != SOURCE_DEFAULT && source != SOURCE_SHORT_TERM)
      ensures r == null ==> out == old(out)
      ensures r != null ==> r !in old(out) && out == old(out) + {r}
      ensures source == SOURCE_DEFAULT ==> (r.provider == longTerm <==> old(longTerm.size) > 0)
      ensures source == SOURCE_SHORT_TERM ==> (r.provider == shortTerm <==> old(shortTerm.size) > 0)
      ensures source == SOURCE_SHORT_TERM ==>
                (r.provider == longTerm <==> old(shortTerm.size) == 0 && old(longTerm.size) > 0)
      ensures r != null ==>
        (r.provider.slave <==> old(longTerm.size) == 0 && (source == SOURCE_SHORT_TERM ==> old(shortTerm.size) == 0))
      ensures r != null ==> (fresh(r.provider) <==> old(SourcesExhausted(source) && SlavesExhausted()))
      ensures Elements(slaves) == old(Elements(slaves)) + if r != null && fresh(r.provider) then {r.provider} else {}
    {
      if source == SOURCE_SHORT_TERM {
        r := TakeFromMaster(shortTerm);
        if r != null { return; }
      }
      if source == SOURCE_DEFAULT || source == SOURCE_SHORT_TERM {
        r := TakeFromMaster(longTerm);
        if r == null {
          ghost var made;
          r, made := AllocateFallback(zone);
        }
      } else {
        r := null;
      }
    }

    /** `p7r_slave_free_adjust`, called before the freed stack is counted: an exhausted slave
        moves to the front, and one that has everything back leaves the list. */
    method SlaveFreeAdjust(p: Provider) returns (dying: bool)
      requires NoTwice(slaves) && p in slaves
      modifies `slaves
      ensures dying <==> p.size + p.perStack == p.capacity
      ensures slaves == AfterFree(old(slaves), p, p.size == 0, dying)
    {
      Removed(slaves, p);
      var dummySize := p.size;
      dying := false;
      if dummySize == 0 {
        var compared := slaves[0];
        if compared != p {
          slaves := Dropped(slaves, p);
          slaves := [p] + slaves;
        } else {
          assert slaves == [p] + Dropped(slaves, p);
        }
      }
      dummySize := dummySize + p.perStack;
      if dummySize == p.capacity {
        slaves := Dropped(slaves, p);
        dying := true;
      }
    }

    /** The books without provider `p`, which has `n` slaves on the list beside or with it. */
    ghost predicate BooksExcept(p: Provider, n: int)
      reads this, Providers()
    {
      && perStack > 2 && slavePages > 0 && slavePages % perStack == 0
      && longTerm != shortTerm && !longTerm.slave && !shortTerm.slave
      && n == |slaves| && NoTwice(slaves) && (forall q :: q in Elements(slaves) ==> q.slave)
      && (forall q :: q in Providers() && q != p ==> Accounted(q))
      && (forall s :: s in out ==> s.provider in Providers() || s.provider == p)
      && ZonesApart(Providers())
    }

    /** The books of `p` agree with what is out, but for a stack not counted yet. */
    ghost predicate Owing(p: Provider)
      reads this, p
    {
      && p.Sound() && p.size + perStack == perStack * |p.pages|
      && Fits(p) && p.Out() == set s | s in out && s.provider == p
    }

    method PutBack(mark: Stack, p: Provider)
      requires Valid() && mark in out && mark.provider == p
      modifies `out, p`pages
      ensures BooksExcept(p, nSlaves) && Owing(p) && p in Providers() && Ordered()
      ensures out == old(out) - {mark} && p.pages == [mark] + old(p.pages)
      ensures p.Out() == old(p.Out()) - {mark} && mark in old(p.Out())
    {
      assert Accounted(p) && mark in p.Out();
      Distribute(perStack, |p.pages|);
      p.PutFirst(mark);
      out := out - {mark};
      forall q | q in Providers() && q != p ensures Accounted(q) { assert old(Accounted(q)); }
    }

    lemma Owed(p: Provider)
      requires Owing(p)
      ensures p.size + perStack <= p.capacity
      ensures p.size + perStack == p.capacity <==> p.Out() == {}
    {
      PagesWithin(p.stacks, p.pages);
      Monotone(perStack, |p.pages|, |p.stacks|);
      Cancel(perStack, |p.pages|, |p.stacks|);
    }

    method CountIn(p: Provider)
      requires BooksExcept(p, nSlaves) && Owing(p) && p in Providers()
      modifies p`size
      ensures Books() && p.size == old(p.size) + perStack
    {
      p.size := p.size + perStack;
      forall q | q in Providers() ensures Accounted(q) { assert q != p ==> old(Accounted(q)); }
    }

    method Discard(p: Provider)
      requires BooksExcept(p, nSlaves - 1) && Owing(p) && p !in Providers() && p.Out() == {} && nSlaves > 0
      modifies `nSlaves
      ensures Books()
    {
      ghost var none := set s | s in out && s.provider == p;
      assert none == {};
      forall s | s in out ensures s.provider in Providers() { assert s !in none; }
      nSlaves := nSlaves - 1;
      forall q | q in Providers() ensures Accounted(q) { assert old(Accounted(q)); }
    }

    /** `p7r_stack_free`. */
    method Free(mark: Stack)
      requires Valid() && mark in out
      modifies this, mark.provider
      ensures Valid() && out == old(out) - {mark}
      ensures mark.provider.pages == [mark] + old(mark.provider.pages)
      ensures mark.provider !in Providers() <==> mark.provider.slave && old(mark.provider.Out()) == {mark}
      ensures slaves == if mark.provider.slave
        then AfterFree(old(slaves), mark.provider, old(mark.provider.size) == 0, mark.provider !in Providers())
        else old(slaves)
      ensures Elements(slaves) <= old(Elements(slaves))
    {
      var provider := mark.provider;
      PutBack(mark, provider);
      Owed(provider);
      if provider.slave {
        CountInSlave(provider);
      } else {
        CountIn(provider);
      }
    }

    /** The rest of a free when the provider is a slave. */
    method CountInSlave(p: Provider)
      requires BooksExcept(p, nSlaves) && Owing(p) && p in Providers() && Ordered() && p.slave
      modifies `slaves, `nSlaves, p`size
      ensures Valid() && (p !in Providers() <==> p.Out() == {})
      ensures slaves == AfterFree(old(slaves), p, old(p.size) == 0, p.Out() == {})
      ensures Elements(slaves) <= old(Elements(slaves))
    {
      Owed(p);
      var dying := AdjustFreed(p);
      if dying {
        Retire(p);
      } else {
        CountInOrder(p);
      }
    }

    /** A slave that has everything back and is off the list is dropped. */
    method Retire(p: Provider)
      requires BooksExcept(p, nSlaves - 1) && Owing(p) && p !in Providers() && p.Out() == {} && nSlaves > 0
      requires InOrder(slaves, p)
      modifies `nSlaves
      ensures Valid()
    {
      assert forall i :: 0 <= i < |slaves| ==> slaves[i] in Elements(slaves);
      Discard(p);
    }

    /** A slave that keeps stacks out and stands where it belongs is counted. */
    method CountInOrder(p: Provider)
      requires BooksExcept(p, nSlaves) && Owing(p) && p in Providers() && p.Out() != {} && InOrder(slaves, p)
      modifies p`size
      ensures Valid()
    {
      Owed(p);
      CountIn(p);
    }

    lemma FreedOrder(s: seq<Provider>, p: Provider, dying: bool)
      requires NoTwice(s) && p in s && InOrder(s, null)
      requires slaves == AfterFree(s, p, p.size == 0, dying)
      ensures InOrder(slaves, p)
    {
      if dying || p.size == 0 {
        var k := RemovedWhere(s, p);
        RemovedInOrder(s, k);
        FreedInOrder(Dropped(s, p), p);
      }
    }

    method AdjustSlaves(p: Provider) returns (dying: bool)
      requires NoTwice(slaves) && p in slaves && Ordered()
      modifies `slaves
      ensures dying <==> p.size + p.perStack == p.capacity
      ensures InOrder(slaves, p) && NoTwice(slaves) && |slaves| == if dying then old(|slaves|) - 1 else old(|slaves|)
      ensures Elements(slaves) == if dying then old(Elements(slaves)) - {p} else old(Elements(slaves))
      ensures slaves == AfterFree(old(slaves), p, p.size == 0, dying)
    {
      ghost var s := slaves;
      dying := SlaveFreeAdjust(p);
      FreedOrder(s, p, dying);
      FreedSet(s, p, dying);
    }

    method AdjustFreed(p: Provider) returns (dying: bool)
      requires BooksExcept(p, nSlaves) && Owing(p) && p in Providers() && Ordered() && p.slave
      modifies `slaves
      ensures dying <==> p.Out() == {}
      ensures Owing(p) && (p in Providers() <==> !dying) && InOrder(slaves, p)
      ensures BooksExcept(p, if dying then nSlaves - 1 else nSlaves) && nSlaves > 0
      ensures Elements(slaves) == if dying then old(Elements(slaves)) - {p} else old(Elements(slaves))
      ensures slaves == AfterFree(old(slaves), p, p.size == 0, dying)
    {
      Owed(p);
      assert p in slaves;
      dying := AdjustSlaves(p);
      forall q | q in Providers() && q != p ensures Accounted(q) { assert old(Accounted(q)); }
    }

    lemma FreedSet(s: seq<Provider>, p: Provider, dying: bool)
      requires NoTwice(s) && p in s
      requires slaves == AfterFree(s, p, p.size == 0, dying)
      ensures NoTwice(slaves) && Elements(slaves) == (if dying then Elements(s) - {p} else Elements(s))
      ensures |slaves| == if dying then |s| - 1 else |s|
    {
      Removed(s, p);
      assert p !in Elements(Dropped(s, p));
      if !dying && p.size == 0 {
        assert Elements([p] + Dropped(s, p)) == {p} + Elements(Dropped(s, p));
      }
    }

    /** Free and outstanding stacks make up every provider's capacity. */
    lemma Conservation(p: Provider)
      requires Valid() && p in Providers()
      ensures p.size == perStack * |p.pages|
      ensures p.size + perStack * |set s | s in out && s.provider == p| == p.capacity
    {
      ThePages(p);
      assert Accounted(p);
      var given := set s | s in out && s.provider == p;
      assert p.Out() == given;
      DistributeSum(perStack, |p.pages|, |given|);
    }

    /** Every slave has a stack out. */
    lemma SlaveInUse(p: Provider)
      requires Valid() && p in slaves
      ensures exists s :: s in out && s.provider == p
    {
      assert p in Elements(slaves);
      ThePages(p);
      assert Accounted(p);
      var s :| s in p.Out();
      assert s in set x | x in out && x.provider == p;
    }

    /** Two stacks handed out never overlap, whatever zones they come from. */
    lemma StacksDisjoint(s: Stack, t: Stack)
      requires Valid() && s in out && t in out && s != t
      ensures s.content + pageBytes * (perStack - 2) <= t.base || t.content + pageBytes * (perStack - 2) <= s.base
    {
      var i := IndexOf(s);
      var j := IndexOf(t);
      WithinZone(s.provider, i);
      WithinZone(t.provider, j);
      if s.provider == t.provider {
        if i < j { s.provider.StacksApart(i, j); } else { s.provider.StacksApart(j, i); }
      }
    }

    lemma IndexOf(s: Stack) returns (i: nat)
      requires Valid() && s in out
      ensures s.provider in Providers() && Accounted(s.provider)
      ensures i < |s.provider.stacks| && s.provider.stacks[i] == s
    {
      var p := s.provider;
      assert Accounted(p);
      assert s in p.Out();
      i :| 0 <= i < |p.stacks| && p.stacks[i] == s;
    }

    /** A stack lies within the zone it was carved from. */
    lemma WithinZone(p: Provider, i: nat)
      requires perStack > 2 && p.Valid() && Fits(p) && i < |p.stacks|
      ensures p.zone <= p.stacks[i].base && p.stacks[i].content + pageBytes * (perStack - 2) <= p.ZoneEnd()
    {
      assert p.CarvedAt(i);
      p.StacksApart(i, |p.stacks|);
    }

    /** Once everything is freed no slave remains and both masters are full. */
    lemma AllFreed()
      requires Valid() && out == {}
      ensures slaves == [] && nSlaves == 0
      ensures longTerm.size == longTerm.capacity && shortTerm.size == shortTerm.capacity
    {
      ThePages(longTerm);
      ThePages(shortTerm);
      assert Accounted(longTerm) && Accounted(shortTerm);
      if slaves != [] {
        SlaveInUse(slaves[0]);
      }
    }
  }

  // ---- Whole runs of an allocator -----------------------------------------------------------

  /** What its users do with an allocator.  `zone` is what mmap answers if a slave is needed; the
      stack given back is the `k`-th of those held. */
  datatype Command = Allocate(source: int, zone: nat) | Hintless(policy: nat, zone: nat) | GiveBack(k: nat)

  /** `held` are the stacks handed out and not given back. */
  ghost predicate Holding(a: Allocator, held: seq<Stack>)
    reads a, a.Providers()
  {
    a.Valid() && NoTwice(held) && Elements(held) == a.out
  }

  /** The bytes of two stacks do not overlap. */
  ghost predicate Apart(a: Allocator, s: Stack, t: Stack)
    requires a.perStack > 2
  {
    var bytes := a.pageBytes * (a.perStack - 2);
    s.content + bytes <= t.base || t.content + bytes <= s.base
  }

  /** What holds whatever was allocated and given back: stacks held do not overlap, no page of any
      zone is lost, every slave serves somebody, and with nothing held all is as at the start. */
  ghost predicate Sane(a: Allocator, held: seq<Stack>)
    requires a.perStack > 2
    reads a, a.Providers()
  {
    && (forall i, j :: 0 <= i < j < |held| ==> Apart(a, held[i], held[j]))
    && (forall p :: p in a.Providers() ==> p.size + a.perStack * |set s | s in held && s.provider == p| == p.capacity)
    && (forall p :: p in a.slaves ==> exists s :: s in held && s.provider == p)
    && (held == [] ==> a.slaves == [] && a.longTerm.size == a.longTerm.capacity
                       && a.shortTerm.size == a.shortTerm.capacity)
  }

  lemma HoldingSane(a: Allocator, held: seq<Stack>)
    requires Holding(a, held)
    ensures Sane(a, held)
  {
    forall i, j | 0 <= i < j < |held| ensures Apart(a, held[i], held[j]) {
      assert held[i] in Elements(held) && held[j] in Elements(held);
      a.StacksDisjoint(held[i], held[j]);
    }
    forall p | p in a.Providers()
      ensures p.size + a.perStack * |set s | s in held && s.provider == p| == p.capacity
    {
      a.Conservation(p);
      assert (set s | s in held && s.provider == p) == (set s | s in a.out && s.provider == p);
    }
    forall p | p in a.slaves ensures exists s :: s in held && s.provider == p {
      a.SlaveInUse(p);
      var s :| s in a.out && s.provider == p;
      assert s in Elements(held);
    }
    if held == [] { a.AllFreed(); }
  }

  method PerformAllocate(a: Allocator, command: Command) returns (r: Stack?)
    requires a.Valid() && !command.GiveBack?
    modifies a, a.longTerm, a.shortTerm, Elements(a.slaves)
    ensures a.Valid() && fresh(Elements(a.slaves) - old(Elements(a.slaves)))
    ensures a.out == old(a.out) + if r == null then {} else {r}
    ensures r != null ==> r !in old(a.out)
  {
    r := null;
    var mappable := a.MayMap(command.zone);
    if mappable {
      if command.Allocate? {
        r := a.AllocateFrom(command.source, command.zone);
      } else {
        r := a.AllocateHintless(command.policy, command.zone);
      }
    }
  }

  /** One command; mmap never answers with an address in use, and nothing is given back twice. */
  method Perform(a: Allocator, held: seq<Stack>, command: Command) returns (held': seq<Stack>)
    requires Holding(a, held)
    modifies a, a.longTerm, a.shortTerm, Elements(a.slaves)
    ensures Holding(a, held') && fresh(Elements(a.slaves) - old(Elements(a.slaves)))
    ensures command.GiveBack? ==>
              held' == if command.k < |held| then held[..command.k] + held[command.k + 1..] else held
    ensures !command.GiveBack? ==> held <= held' && |held'| <= |held| + 1
  {
    held' := held;
    if !command.GiveBack? {
      var r := PerformAllocate(a, command);
      if r != null {
        Appended(held, r);
        held' := held + [r];
      }
    } else if command.k < |held| {
      var mark := held[command.k];
      assert mark in Elements(held);
      RemovedAt(held, command.k);
      assert a.Accounted(mark.provider);
      a.Free(mark);
      held' := held[..command.k] + held[command.k + 1..];
    }
  }

  /** A new allocator after any commands. */
  method Replay(longPages: nat, shortPages: nat, slavePages: nat, total: nat, pageBytes: nat,
                longZone: nat, shortZone: nat, trace: seq<Command>)
    returns (a: Allocator, held: seq<Stack>)
    requires total > 2 && slavePages > 0
    requires longZone + AdjustCapacity(longPages, total) * pageBytes <= shortZone
      || shortZone + AdjustCapacity(shortPages, total) * pageBytes <= longZone
    ensures fresh(a) && Holding(a, held) && Sane(a, held)
  {
    a := new Allocator(longPages, shortPages, slavePages, total, pageBytes, longZone, shortZone);
    held := [];
    var i := 0;
    while i < |trace|
      invariant Holding(a, held)
      invariant fresh(a) && fresh(a.longTerm) && fresh(a.shortTerm) && fresh(Elements(a.slaves))
    {
      held := Perform(a, held, trace[i]);
      i := i + 1;
    }
    HoldingSane(a, held);
  }

  /** As many stacks are out as are missing from the free list. */
  lemma PagesWithin(stacks: seq<Stack>, pages: seq<Stack>)
    requires NoTwice(stacks) && NoTwice(pages) && Elements(pages) <= Elements(stacks)
    ensures |pages| <= |stacks| && |Elements(stacks) - Elements(pages)| == |stacks| - |pages|
  {
    SizeOf(stacks);
    SizeOf(pages);
    SubsetSize(Elements(pages), Elements(stacks));
  }
}
