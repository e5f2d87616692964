/** What the containers demand of the comparators and hashes they are given. */
module Comparators {
  /** Marks three keys as ones whose comparisons a proof needs; always true. */
  ghost predicate Compared(a: int, b: int, c: int) { true }

  /** What the red-black tree needs of its comparator: it answers -1, 0 or 1 and is a total preorder. */
  ghost predicate ThreeWay(cmp: (int, int) -> int) {
    forall a, b, c {:trigger Compared(a, b, c)} :: Compared(a, b, c) ==>
      && -1 <= cmp(a, b) <= 1
      && cmp(a, b) == -cmp(b, a)
      && (cmp(a, b) <= 0 && cmp(b, c) <= 0 ==> cmp(a, c) <= 0)
  }

  lemma Laws(cmp: (int, int) -> int, a: int, b: int, c: int)
    requires ThreeWay(cmp)
    ensures -1 <= cmp(a, b) <= 1 && cmp(a, b) == -cmp(b, a)
    ensures cmp(a, b) <= 0 && cmp(b, c) <= 0 ==> cmp(a, c) <= 0
  {
    assert Compared(a, b, c);
  }

  /** What the hash table needs: the comparator's zero is an equivalence, and the hash respects it. */
  ghost predicate Respects(cmp: (int, int) -> int, hash: int -> nat) {
    forall a, b, c {:trigger Compared(a, b, c)} :: Compared(a, b, c) ==>
      && cmp(a, a) == 0
      && (cmp(a, b) == 0 ==> cmp(b, a) == 0 && hash(a) == hash(b))
      && (cmp(a, b) == 0 && cmp(b, c) == 0 ==> cmp(a, c) == 0)
  }

  lemma Equivalence(cmp: (int, int) -> int, hash: int -> nat, a: int, b: int, c: int)
    requires Respects(cmp, hash)
    ensures cmp(a, a) == 0
    ensures cmp(a, b) == 0 ==> cmp(b, a) == 0 && hash(a) == hash(b)
    ensures cmp(a, b) == 0 && cmp(b, c) == 0 ==> cmp(a, c) == 0
  {
    assert Compared(a, b, c);
  }
}
