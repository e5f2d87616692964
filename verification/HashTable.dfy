/** util/scraft_hashtable.c: the chained hash table that moves a fetched entry to the front of
    its chain.  It refines a map from key classes to stacks of entries. */
module HashTable {
  import opened Comparators
  import opened Lists
  import opened Words

  const WORD := 0x1_0000_0000_0000_0000

  /** A `struct scraft_hashkey` with the key of the structure it is embedded in. */
  class Entry {
    const key: int
    var hits: nat

    constructor (key: int)
      ensures this.key == key && hits == 0
    {
      this.key, hits := key, 0;
    }
  }

  /** `size` is the counter kept beside the chain; nothing reads it. */
  datatype Slot = Slot(cluster: seq<Entry>, size: nat)

  // ---- Chains ---------------------------------------------------------------------------

  /** The entries of a chain that compare equal to `key`, in chain order. */
  ghost function Matching(cmp: (int, int) -> int, key: int, s: seq<Entry>): seq<Entry> {
    if s == [] then []
    else if cmp(key, s[0].key) == 0 then [s[0]] + Matching(cmp, key, s[1..])
    else Matching(cmp, key, s[1..])
  }

  lemma {:induction false} MatchingConcat(cmp: (int, int) -> int, key: int, a: seq<Entry>, b: seq<Entry>)
    ensures Matching(cmp, key, a + b) == Matching(cmp, key, a) + Matching(cmp, key, b)
  {
    if a == [] {
      assert a + b == b;
    } else {
      MatchingConcat(cmp, key, a[1..], b);
      var x, y := Matching(cmp, key, a[1..]), Matching(cmp, key, b);
      assert (a + b)[0] == a[0] && (a + b)[1..] == a[1..] + b;
      assert [a[0]] + (x + y) == ([a[0]] + x) + y;
    }
  }

  lemma {:induction false} MatchingNone(cmp: (int, int) -> int, key: int, s: seq<Entry>)
    requires forall i :: 0 <= i < |s| ==> cmp(key, s[i].key) != 0
    ensures Matching(cmp, key, s) == []
  {
    if s == [] {
    } else {
      MatchingNone(cmp, key, s[1..]);
    }
  }

  ghost predicate FirstMatch(cmp: (int, int) -> int, key: int, s: seq<Entry>, i: nat) {
    && i < |s| && cmp(key, s[i].key) == 0
    && forall j :: 0 <= j < i ==> cmp(key, s[j].key) != 0
  }

  /** Seen through any key, a chain is what precedes its `i`-th entry, the entry, and the rest. */
  lemma MatchingAround(cmp: (int, int) -> int, key: int, s: seq<Entry>, i: nat)
    requires i < |s|
    ensures Matching(cmp, key, s) == Matching(cmp, key, s[..i]) +
              (if cmp(key, s[i].key) == 0 then [s[i]] else []) + Matching(cmp, key, s[i + 1..])
  {
    assert s == s[..i] + s[i..];
    MatchingConcat(cmp, key, s[..i], s[i..]);
    assert s[i..][1..] == s[i + 1..];
  }

  /** No entry ahead of the first match of a key belongs to that key's class. */
  lemma NoneAhead(cmp: (int, int) -> int, hash: int -> nat, key: int, other: int, s: seq<Entry>, i: nat)
    requires Respects(cmp, hash) && FirstMatch(cmp, key, s, i) && cmp(other, s[i].key) == 0
    ensures Matching(cmp, other, s[..i]) == []
  {
    forall j | 0 <= j < i ensures cmp(other, s[j].key) != 0 {
      Equivalence(cmp, hash, other, s[i].key, s[j].key);
      Equivalence(cmp, hash, s[i].key, other, s[j].key);
      Equivalence(cmp, hash, key, s[i].key, s[j].key);
    }
    MatchingNone(cmp, other, s[..i]);
  }

  ghost function ToFront(s: seq<Entry>, i: nat): seq<Entry>
    requires i < |s|
  {
    [s[i]] + s[..i] + s[i + 1..]
  }

  /** Moving the first match of a key to the front keeps the order within every key class. */
  lemma ToFrontKeepsOrder(cmp: (int, int) -> int, hash: int -> nat, key: int, other: int, s: seq<Entry>, i: nat)
    requires Respects(cmp, hash) && FirstMatch(cmp, key, s, i)
    ensures Matching(cmp, other, ToFront(s, i)) == Matching(cmp, other, s)
  {
    MatchingAround(cmp, other, s, i);
    MatchingConcat(cmp, other, [s[i]] + s[..i], s[i + 1..]);
    MatchingConcat(cmp, other, [s[i]], s[..i]);
    if cmp(other, s[i].key) == 0 { NoneAhead(cmp, hash, key, other, s, i); }
  }

  /** Taking out the first match of a key takes the top off its class and nothing off any other. */
  lemma RemovedIsTop(cmp: (int, int) -> int, hash: int -> nat, key: int, other: int, s: seq<Entry>, i: nat)
    requires Respects(cmp, hash) && FirstMatch(cmp, key, s, i)
    ensures cmp(other, key) == 0 ==> Matching(cmp, other, s) != [] && Matching(cmp, other, s)[0] == s[i]
    ensures Matching(cmp, other, s[..i] + s[i + 1..]) ==
            if cmp(other, key) == 0 then Matching(cmp, other, s)[1..] else Matching(cmp, other, s)
  {
    MatchingAround(cmp, other, s, i);
    MatchingConcat(cmp, other, s[..i], s[i + 1..]);
    Equivalence(cmp, hash, other, key, s[i].key);
    Equivalence(cmp, hash, key, s[i].key, other);
    Equivalence(cmp, hash, other, s[i].key, key);
    if cmp(other, s[i].key) == 0 { NoneAhead(cmp, hash, key, other, s, i); }
  }

  /** Slot `i` of `cap`: its entries hash to it, none is there twice, and `size` counts them
      and the `removed` ones. */
  ghost predicate SlotFits(hash: int -> nat, cap: nat, slot: Slot, i: nat, removed: nat)
    requires cap > 0
  {
    var s := slot.cluster;
    && (forall j :: 0 <= j < |s| ==> hash(s[j].key) % cap == i)
    && NoTwice(s)
    && slot.size == (|s| + removed) % WORD
  }

  lemma PushedFits(hash: int -> nat, cap: nat, slot: Slot, i: nat, removed: nat, e: Entry)
    requires cap > 0 && SlotFits(hash, cap, slot, i, removed) && e !in slot.cluster && hash(e.key) % cap == i
    ensures SlotFits(hash, cap, Slot([e] + slot.cluster, (slot.size + 1) % WORD), i, removed)
  {
    CountingUp(WORD, |slot.cluster| + removed);
  }

  lemma ToFrontFits(hash: int -> nat, cap: nat, slot: Slot, i: nat, removed: nat, k: nat)
    requires cap > 0 && SlotFits(hash, cap, slot, i, removed) && k < |slot.cluster|
    ensures SlotFits(hash, cap, slot.(cluster := ToFront(slot.cluster, k)), i, removed)
  {}

  lemma TakenFits(hash: int -> nat, cap: nat, slot: Slot, i: nat, removed: nat, k: nat)
    requires cap > 0 && SlotFits(hash, cap, slot, i, removed) && k < |slot.cluster|
    ensures SlotFits(hash, cap, slot.(cluster := slot.cluster[..k] + slot.cluster[k + 1..]), i, removed + 1)
  {}

  // ---- The table ------------------------------------------------------------------------

  class Table {
    const cmp: (int, int) -> int
    const hash: int -> nat
    const destroys: bool            // key_destroy is not NULL
    const slots: array<Slot>
    ghost var removed: seq<nat>     // entries ever removed, by slot

    ghost predicate SlotValid(i: nat)
      requires i < slots.Length && |removed| == slots.Length
      reads this, slots
    {
      SlotFits(hash, slots.Length, slots[i], i, removed[i])
    }

    ghost predicate Valid()
      reads this, slots
    {
      && 0 < slots.Length == |removed|
      && Respects(cmp, hash)
      && forall i :: 0 <= i < slots.Length ==> SlotValid(i)
    }

    function Bucket(key: int): nat
      requires slots.Length > 0
    {
      hash(key) % slots.Length
    }

    /** The abstract value: the stack of entries of a key's class, newest first. */
    ghost function Stack(key: int): seq<Entry>
      requires slots.Length > 0
      reads slots
    {
      Matching(cmp, key, slots[Bucket(key)].cluster)
    }

    constructor (cap: nat, cmp: (int, int) -> int, hash: int -> nat, destroys: bool)
      requires cap > 0 && Respects(cmp, hash)
      ensures Valid() && fresh(slots) && slots.Length == cap && this.cmp == cmp && this.hash == hash
      ensures forall i :: 0 <= i < cap ==> slots[i] == Slot([], 0) && removed[i] == 0
      ensures forall key :: Stack(key) == []
    {
      this.cmp, this.hash, this.destroys := cmp, hash, destroys;
      slots := new Slot[cap](_ => Slot([], 0));
      removed := seq(cap, _ => 0);
    }

    method Insert(e: Entry)
      requires Valid() && e !in slots[Bucket(e.key)].cluster
      modifies slots, e
      ensures Valid() && e.hits == 0
      ensures slots[Bucket(e.key)].cluster == [e] + old(slots[Bucket(e.key)].cluster)
      ensures forall i :: 0 <= i < slots.Length && i != Bucket(e.key) ==> slots[i] == old(slots[i])
      ensures forall key :: Stack(key) == if cmp(key, e.key) == 0 then [e] + old(Stack(key)) else old(Stack(key))
    {
      var h := Bucket(e.key);
      assert SlotValid(h);
      PushedFits(hash, slots.Length, slots[h], h, removed[h], e);
      slots[h] := slots[h].(size := (slots[h].size + 1) % WORD);
      slots[h] := slots[h].(cluster := [e] + slots[h].cluster);
      e.hits := 0;
      forall i | 0 <= i < slots.Length ensures SlotValid(i) { assert old(SlotValid(i)); }
      forall key ensures Stack(key) == if cmp(key, e.key) == 0 then [e] + old(Stack(key)) else old(Stack(key)) {
        Equivalence(cmp, hash, key, e.key, e.key);
        MatchingAround(cmp, key, slots[h].cluster, 0);
      }
    }

    /** The first entry of the chain that compares equal to `key`. */
    method Find(h: nat, key: int) returns (i: nat)
      requires h < slots.Length
      ensures i <= |slots[h].cluster|
      ensures i < |slots[h].cluster| ==> FirstMatch(cmp, key, slots[h].cluster, i)
      ensures i == |slots[h].cluster| <==> Matching(cmp, key, slots[h].cluster) == []
    {
      i := 0;
      while i < |slots[h].cluster|
        invariant i <= |slots[h].cluster|
        invariant forall j :: 0 <= j < i ==> cmp(key, slots[h].cluster[j].key) != 0
      {
        if cmp(key, slots[h].cluster[i].key) == 0 {
          MatchingAround(cmp, key, slots[h].cluster, i);
          return;
        }
        i := i + 1;
      }
      MatchingNone(cmp, key, slots[h].cluster);
    }

    ghost predicate MovedFirst(before: Slot, after: Slot, e: Entry) {
      e in before.cluster && after == before.(cluster := [e] + Dropped(before.cluster, e))
    }

    method Refront(h: nat, i: nat) returns (e: Entry)
      requires Valid() && h < slots.Length && i < |slots[h].cluster|
      modifies slots
      ensures Valid() && e == old(slots[h].cluster)[i] && MovedFirst(old(slots[h]), slots[h], e)
      ensures slots[h].cluster == ToFront(old(slots[h].cluster), i)
      ensures forall j :: 0 <= j < slots.Length && j != h ==> slots[j] == old(slots[j])
    {
      assert SlotValid(h);
      ToFrontFits(hash, slots.Length, slots[h], h, removed[h], i);
      DroppedAt(slots[h].cluster, i);
      ghost var s := slots[h].cluster;
      e := slots[h].cluster[i];
      slots[h] := slots[h].(cluster := slots[h].cluster[..i] + slots[h].cluster[i + 1..]);
      slots[h] := slots[h].(cluster := [e] + slots[h].cluster);
      assert slots[h].cluster == ToFront(s, i);
      forall j | 0 <= j < slots.Length ensures SlotValid(j) { assert old(SlotValid(j)); }
    }

    /** Reads the top of a class and moves it to the front of its chain. */
    method Fetch(key: int) returns (r: Entry?)
      requires Valid()
      modifies slots, slots[Bucket(key)].cluster
      ensures Valid()
      ensures r == null <==> Stack(key) == []
      ensures r != null ==> r == Stack(key)[0]
      ensures r != null ==> MovedFirst(old(slots[Bucket(key)]), slots[Bucket(key)], r)
      ensures forall i :: 0 <= i < slots.Length && (r == null || i != Bucket(key)) ==> slots[i] == old(slots[i])
      ensures forall other :: Stack(other) == old(Stack(other))
      ensures forall e :: e in old(slots[Bucket(key)].cluster) ==>
                            e.hits == if e == r then (old(e.hits) + 1) % WORD else old(e.hits)
    {
      var h := Bucket(key);
      var i := Find(h, key);
      if i == |slots[h].cluster| {
        return null;
      }
      var found := Promote(key, i);
      found.hits := (found.hits + 1) % WORD;
      r := found;
    }

    /** Moves the first match of `key` to the front. */
    method Promote(key: int, i: nat) returns (e: Entry)
      requires Valid() && FirstMatch(cmp, key, slots[Bucket(key)].cluster, i)
      modifies slots
      ensures Valid() && MovedFirst(old(slots[Bucket(key)]), slots[Bucket(key)], e)
      ensures Stack(key) != [] && e == Stack(key)[0]
      ensures forall other :: Stack(other) == old(Stack(other))
      ensures forall j :: 0 <= j < slots.Length && j != Bucket(key) ==> slots[j] == old(slots[j])
    {
      var h := Bucket(key);
      ghost var s := slots[h].cluster;
      e := Refront(h, i);
      forall other ensures Stack(other) == old(Stack(other)) {
        if Bucket(other) == h { ToFrontKeepsOrder(cmp, hash, key, other, s, i); }
      }
      MatchingAround(cmp, key, slots[h].cluster, 0);
    }

    ghost predicate TakenOut(before: Slot, after: Slot, e: Entry) {
      e in before.cluster && after == before.(cluster := Dropped(before.cluster, e))
    }

    method Unlink(h: nat, i: nat) returns (e: Entry)
      requires Valid() && h < slots.Length && i < |slots[h].cluster|
      modifies slots, `removed
      ensures Valid() && e == old(slots[h].cluster)[i] && TakenOut(old(slots[h]), slots[h], e)
      ensures slots[h].cluster == old(slots[h].cluster)[..i] + old(slots[h].cluster)[i + 1..]
      ensures forall j :: 0 <= j < slots.Length && j != h ==> slots[j] == old(slots[j])
      ensures removed == old(removed)[h := old(removed)[h] + 1]
    {
      assert SlotValid(h);
      TakenFits(hash, slots.Length, slots[h], h, removed[h], i);
      DroppedAt(slots[h].cluster, i);
      e := slots[h].cluster[i];
      slots[h] := slots[h].(cluster := slots[h].cluster[..i] + slots[h].cluster[i + 1..]);
      removed := removed[h := removed[h] + 1];
      forall j | 0 <= j < slots.Length ensures SlotValid(j) { assert old(SlotValid(j)); }
    }

    /** Pops the class of `key`; the slot's `size` stays as it is. */
    method Remove(key: int) returns (r: Entry?)
      requires Valid()
      modifies slots, `removed
      ensures Valid()
      ensures r == null <==> old(Stack(key)) == []
      ensures r == null ==> forall other :: Stack(other) == old(Stack(other))
      ensures r != null ==> r == old(Stack(key))[0]
      ensures r != null ==> forall other ::
        Stack(other) == if cmp(other, key) == 0 && old(Stack(other)) != [] then old(Stack(other))[1..]
                        else old(Stack(other))
      ensures r != null ==> TakenOut(old(slots[Bucket(key)]), slots[Bucket(key)], r)
      ensures forall i :: 0 <= i < slots.Length && (r == null || i != Bucket(key)) ==> slots[i] == old(slots[i])
      ensures removed == if r == null then old(removed) else old(removed)[Bucket(key) := old(removed)[Bucket(key)] + 1]
    {
      var h := Bucket(key);
      var i := Find(h, key);
      if i == |slots[h].cluster| {
        return null;
      }
      ghost var s := slots[h].cluster;
      r := Unlink(h, i);
      RemovedIsTop(cmp, hash, key, key, s, i);
      Equivalence(cmp, hash, key, key, key);
      forall other
        ensures Stack(other) ==
                if cmp(other, key) == 0 && old(Stack(other)) != [] then old(Stack(other))[1..] else old(Stack(other))
      {
        Equivalence(cmp, hash, other, key, key);
        if Bucket(other) == h { RemovedIsTop(cmp, hash, key, other, s, i); }
      }
    }

    /** `size` counts removed entries too: it is the chain's length exactly when, modulo the
        counter's width, nothing was ever removed from the slot. */
    lemma SizeMiscounts(i: nat)
      requires Valid() && i < slots.Length && |slots[i].cluster| < WORD
      ensures slots[i].size == |slots[i].cluster| <==> removed[i] % WORD == 0
    {
      assert SlotValid(i);
      var n, d := |slots[i].cluster|, removed[i];
      assert (n + d) % WORD == (n + d % WORD) % WORD;
    }

    /** `scraft_hashtable_delete`: the key must be present, for the callback gets what was removed. */
    method Delete(key: int) returns (destroyed: seq<Entry>)
      requires Valid() && Stack(key) != []
      modifies slots, `removed
      ensures Valid()
      ensures destroyed == if destroys then [old(Stack(key))[0]] else []
      ensures forall other ::
        Stack(other) == if cmp(other, key) == 0 && old(Stack(other)) != [] then old(Stack(other))[1..]
                        else old(Stack(other))
    {
      var r := Remove(key);
      destroyed := if destroys then [r] else [];
    }

    /** Everything in the first `n` slots, in order. */
    ghost function Contents(n: nat): seq<Entry>
      requires n <= slots.Length
      reads slots
    {
      if n == 0 then [] else Contents(n - 1) + slots[n - 1].cluster
    }

    /** The list has every entry, and none twice: within a slot none is, and slots differ in the
        keys that belong there. */
    lemma {:induction false} ContentsOnce(n: nat)
      requires Valid() && n <= slots.Length
      ensures NoTwice(Contents(n))
      ensures forall e :: e in Contents(n) ==> Bucket(e.key) < n
      ensures forall i, j :: 0 <= i < n && 0 <= j < |slots[i].cluster| ==> slots[i].cluster[j] in Contents(n)
    {
      if n == 0 {
      } else {
        ContentsOnce(n - 1);
        assert SlotValid(n - 1);
        forall e | e in slots[n - 1].cluster ensures Bucket(e.key) == n - 1 && e !in Contents(n - 1) {}
        Joined(Contents(n - 1), slots[n - 1].cluster);
      }
    }

    /** Takes every entry off a chain. */
    method EmptySlot(i: nat, handed: seq<Entry>) returns (destroyed: seq<Entry>)
      requires |removed| == slots.Length && i < slots.Length
      requires slots[i].size == (|slots[i].cluster| + removed[i]) % WORD
      modifies slots
      ensures slots[i] == Slot([], removed[i] % WORD)
      ensures forall j :: 0 <= j < slots.Length && j != i ==> slots[j] == old(slots[j])
      ensures destroyed == if destroys then handed + old(slots[i].cluster) else handed
    {
      destroyed := handed;
      while slots[i].cluster != []
        invariant slots[i].size == (|slots[i].cluster| + removed[i]) % WORD
        invariant forall j :: 0 <= j < slots.Length && j != i ==> slots[j] == old(slots[j])
        invariant destroys ==> destroyed + slots[i].cluster == handed + old(slots[i].cluster)
        invariant !destroys ==> destroyed == handed
        decreases |slots[i].cluster|
      {
        CountingDown(WORD, |slots[i].cluster| + removed[i]);
        var t := slots[i].cluster[0];
        slots[i] := Slot(slots[i].cluster[1..], (slots[i].size - 1) % WORD);
        if destroys { destroyed := destroyed + [t]; }
      }
    }

    /** `scraft_hashtable_destroy`: the callback gets every entry once. */
    method Destroy() returns (destroyed: seq<Entry>)
      requires Valid()
      modifies slots
      ensures destroyed == if destroys then old(Contents(slots.Length)) else []
      ensures NoTwice(destroyed)
      ensures forall i :: 0 <= i < slots.Length ==> slots[i] == Slot([], removed[i] % WORD)
    {
      ContentsOnce(slots.Length);
      destroyed := [];
      var i := 0;
      while i < slots.Length
        invariant i <= slots.Length
        invariant forall j :: 0 <= j < i ==> slots[j] == Slot([], removed[j] % WORD)
        invariant forall j :: i <= j < slots.Length ==> slots[j] == old(slots[j])
        invariant destroyed == if destroys then old(Contents(i)) else []
      {
        assert old(SlotValid(i));
        destroyed := EmptySlot(i, destroyed);
        i := i + 1;
      }
    }
  }

  /** Where the counter goes wrong: after one insertion and one removal the chain is empty and
      its `size` is one. */
  method MiscountedSlot(key: int) returns (t: Table)
    ensures t.Valid() && t.slots.Length == 1 && t.slots[0] == Slot([], 1)
  {
    t := new Table(1, (a, b) => if a == b then 0 else 1, _ => 0, false);
    var e := new Entry(key);
    t.Insert(e);
    assert t.SlotValid(0);
    var r := t.Remove(key);
  }

  // ---- The string hash -------------------------------------------------------------------

  /** The polynomial in 33 that `scraft_hashaux_djb_cstring` evaluates, without a word size. */
  ghost function Polynomial(s: seq<int>): int {
    if s == [] then 5381 else 33 * Polynomial(s[..|s| - 1]) + s[|s| - 1]
  }

  lemma StepModWord(h: int, c: int)
    ensures (((h % WORD) * 32) % WORD + h % WORD + c) % WORD == (33 * h + c) % WORD
  {
    var q, r := h / WORD, h % WORD;
    assert 33 * h + c == 33 * r + c + WORD * (33 * q);
    var q1 := (r * 32) / WORD;
    assert (r * 32) % WORD == r * 32 - WORD * q1;
    assert 33 * h + c == ((r * 32) % WORD + r + c) + WORD * (33 * q + q1);
    ShiftedResidue((r * 32) % WORD + r + c, 33 * q + q1);
  }

  lemma ShiftedResidue(a: int, k: int)
    ensures (a + WORD * k) % WORD == a % WORD
  {}

  /** The characters of a string up to its terminator; they may be negative. */
  method DjbCString(cstr: seq<int>) returns (h: nat)
    requires 0 in cstr
    ensures exists n :: 0 <= n < |cstr| && cstr[n] == 0 && 0 !in cstr[..n] && h == Polynomial(cstr[..n]) % WORD
  {
    h := 5381;
    var i := 0;
    while cstr[i] != 0
      invariant i < |cstr| && 0 !in cstr[..i]
      invariant h == Polynomial(cstr[..i]) % WORD
      decreases |cstr| - i
    {
      StepModWord(Polynomial(cstr[..i]), cstr[i]);
      assert cstr[..i + 1][..i] == cstr[..i];
      h := ((h * 32) % WORD + h + cstr[i]) % WORD;
      i := i + 1;
    }
  }
}
