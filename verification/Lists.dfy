/** Sequences as lists without repetition, and what taking an element out does to them. */
module Lists {
  ghost function Elements<T>(s: seq<T>): set<T> { set x | x in s }

  ghost predicate NoTwice<T>(s: seq<T>) {
    forall i, j :: 0 <= i < j < |s| ==> s[i] != s[j]
  }

  /** What `list_del` leaves of a list. */
  function Dropped<T(==)>(s: seq<T>, x: T): seq<T> {
    if s == [] then [] else if s[0] == x then s[1..] else [s[0]] + Dropped(s[1..], x)
  }

  lemma {:induction false} DroppedAt<T>(s: seq<T>, i: nat)
    requires NoTwice(s) && i < |s|
    ensures Dropped(s, s[i]) == s[..i] + s[i + 1..]
  {
    if i == 0 {
    } else {
      DroppedAt(s[1..], i - 1);
      assert s[..i] + s[i + 1..] == [s[0]] + (s[1..][..i - 1] + s[1..][i..]);
    }
  }

  lemma {:induction false} DroppedBetween<T>(a: seq<T>, x: T, b: seq<T>)
    requires x !in a
    ensures Dropped(a + [x] + b, x) == a + b
  {
    if a == [] {
      assert a + [x] + b == [x] + b;
    } else {
      DroppedBetween(a[1..], x, b);
      assert (a + [x] + b)[1..] == a[1..] + [x] + b;
    }
  }

  lemma RemovedAt<T>(s: seq<T>, i: nat)
    requires NoTwice(s) && i < |s|
    ensures NoTwice(s[..i] + s[i + 1..]) && Elements(s[..i] + s[i + 1..]) == Elements(s) - {s[i]}
  {
    assert s == s[..i] + [s[i]] + s[i + 1..];
    assert Elements(s) == Elements(s[..i]) + {s[i]} + Elements(s[i + 1..]);
    assert Elements(s[..i] + s[i + 1..]) == Elements(s[..i]) + Elements(s[i + 1..]);
    assert s[i] !in s[..i] && s[i] !in s[i + 1..];
  }

  /** Where the element was. */
  lemma RemovedWhere<T>(s: seq<T>, x: T) returns (i: nat)
    requires NoTwice(s) && x in s
    ensures i < |s| && s[i] == x && Dropped(s, x) == s[..i] + s[i + 1..]
  {
    i :| 0 <= i < |s| && s[i] == x;
    DroppedAt(s, i);
  }

  lemma Removed<T>(s: seq<T>, x: T)
    requires NoTwice(s) && x in s
    ensures NoTwice(Dropped(s, x)) && Elements(Dropped(s, x)) == Elements(s) - {x} && |Dropped(s, x)| == |s| - 1
  {
    var i := RemovedWhere(s, x);
    RemovedAt(s, i);
  }

  lemma Joined<T>(a: seq<T>, b: seq<T>)
    requires NoTwice(a) && NoTwice(b) && forall x :: x in b ==> x !in a
    ensures NoTwice(a + b)
  {
    forall i, j | 0 <= i < j < |a + b| ensures (a + b)[i] != (a + b)[j] {
      if i < |a| <= j { assert b[j - |a|] !in a; }
    }
  }

  lemma Regrouped<T>(a: seq<T>, b: seq<T>, c: seq<T>)
    ensures a + (b + c) == (a + b) + c
  {}

  lemma HeadRemoved<T>(s: seq<T>)
    requires s != []
    ensures Dropped(s, s[0]) == s[1..]
  {}

  /** Where an element first stands. */
  function IndexOf<T(==)>(s: seq<T>, x: T): (i: nat)
    requires x in s
    ensures i < |s| && s[i] == x && x !in s[..i]
  {
    if s[0] == x then 0 else 1 + IndexOf(s[1..], x)
  }

  /** `t` lists some elements of `s`, each once, in the order in which they first stand in `s`. */
  ghost predicate InOrderOf<T>(t: seq<T>, s: seq<T>) {
    && (forall x :: x in t ==> x in s)
    && (forall i, j :: 0 <= i < j < |t| ==> t[i] in s && t[j] in s && IndexOf(s, t[i]) < IndexOf(s, t[j]))
  }

  /** `t` is `s` without the elements `gone`. */
  ghost predicate Without<T>(s: seq<T>, gone: set<T>, t: seq<T>) {
    InOrderOf(t, s) && forall x :: x in s ==> (x in t <==> x !in gone)
  }

  lemma IndexAt<T>(s: seq<T>, i: nat)
    requires NoTwice(s) && i < |s|
    ensures IndexOf(s, s[i]) == i
  {
    var j := IndexOf(s, s[i]);
    assert s[j] == s[i];
  }

  lemma IndexShifts<T>(s: seq<T>, x: T)
    requires s != [] && x in s && x != s[0]
    ensures x in s[1..] && IndexOf(s, x) == 1 + IndexOf(s[1..], x)
  {}

  lemma {:induction false} IndexBehind<T>(s: seq<T>, t: seq<T>, x: T)
    requires x in s
    ensures x in s + t && IndexOf(s + t, x) == IndexOf(s, x)
  {
    assert s + t == [s[0]] + (s[1..] + t);
    if s[0] == x {
    } else {
      IndexBehind(s[1..], t, x);
      assert (s + t)[1..] == s[1..] + t;
    }
  }

  lemma InOrderSame<T>(s: seq<T>)
    requires NoTwice(s)
    ensures InOrderOf(s, s)
  {
    forall i, j | 0 <= i < j < |s| ensures IndexOf(s, s[i]) < IndexOf(s, s[j]) {
      IndexAt(s, i);
      IndexAt(s, j);
    }
  }

  lemma InOrderThrough<T>(a: seq<T>, b: seq<T>, c: seq<T>)
    requires InOrderOf(a, b) && InOrderOf(b, c)
    ensures InOrderOf(a, c)
  {
    forall i, j | 0 <= i < j < |a| ensures a[i] in c && a[j] in c && IndexOf(c, a[i]) < IndexOf(c, a[j]) {
      var p, q := IndexOf(b, a[i]), IndexOf(b, a[j]);
      assert b[p] == a[i] && b[q] == a[j];
    }
  }

  lemma DroppedInOrder<T>(s: seq<T>, x: T)
    requires NoTwice(s)
    ensures InOrderOf(Dropped(s, x), s)
  {
    if x in s {
      var k := RemovedWhere(s, x);
      var t := s[..k] + s[k + 1..];
      forall i, j | 0 <= i < j < |t| ensures IndexOf(s, t[i]) < IndexOf(s, t[j]) {
        IndexAt(s, if i < k then i else i + 1);
        IndexAt(s, if j < k then j else j + 1);
      }
    } else {
      DroppedNothing(s, x);
      InOrderSame(s);
    }
  }

  lemma WithoutOne<T>(s: seq<T>, x: T)
    requires NoTwice(s) && x in s
    ensures x !in Dropped(s, x) && Without(s, {x}, Dropped(s, x))
  {
    DroppedInOrder(s, x);
    Removed(s, x);
    assert x !in Elements(Dropped(s, x));
    forall y | y in s && y != x ensures y in Dropped(s, x) {
      assert y in Elements(s) && y in Elements(Dropped(s, x));
    }
  }

  lemma {:induction false} DroppedNothing<T>(s: seq<T>, x: T)
    requires x !in s
    ensures Dropped(s, x) == s
  {
    if s == [] {
    } else {
      DroppedNothing(s[1..], x);
    }
  }

  /** In front of a list in order of `s` may stand what precedes all of `s`. */
  lemma InOrderConsed<T>(x: T, t: seq<T>, s: seq<T>)
    requires InOrderOf(t, s) && x !in t
    ensures InOrderOf([x] + t, [x] + s)
  {
    var t', s' := [x] + t, [x] + s;
    forall i, j | 0 <= i < j < |t'| ensures t'[i] in s' && t'[j] in s' && IndexOf(s', t'[i]) < IndexOf(s', t'[j]) {
      IndexShifts(s', t'[j]);
      if i > 0 { IndexShifts(s', t'[i]); }
    }
  }

  lemma InOrderLonger<T>(x: T, t: seq<T>, s: seq<T>)
    requires InOrderOf(t, s) && x !in t
    ensures InOrderOf(t, [x] + s)
  {
    var s' := [x] + s;
    forall i, j | 0 <= i < j < |t| ensures t[i] in s' && t[j] in s' && IndexOf(s', t[i]) < IndexOf(s', t[j]) {
      IndexShifts(s', t[i]);
      IndexShifts(s', t[j]);
    }
  }

  lemma Appended<T>(s: seq<T>, x: T)
    requires NoTwice(s) && x !in Elements(s)
    ensures NoTwice(s + [x]) && Elements(s + [x]) == Elements(s) + {x}
  {}

  lemma {:induction false} SizeOf<T>(s: seq<T>)
    requires NoTwice(s)
    ensures |Elements(s)| == |s|
  {
    if s == [] {
    } else {
      SizeOf(s[1..]);
      assert s == [s[0]] + s[1..];
      assert Elements(s) == {s[0]} + Elements(s[1..]);
    }
  }

  lemma SubsetSize<T>(a: set<T>, b: set<T>)
    requires a <= b
    ensures |a| <= |b| && |b - a| == |b| - |a|
  {
    assert b == a + (b - a);
  }
}
