/** Counters that wrap at a word. */
module Words {
  /** Counting a wrapped counter up by one is counting up, then wrapping. */
  lemma CountingUp(word: int, n: int)
    requires word > 0
    ensures (n % word + 1) % word == (n + 1) % word
  {
    var q, r := n / word, n % word;
    if r + 1 < word {
      Residue(word, n + 1, q, r + 1);
      Residue(word, r + 1, 0, r + 1);
    } else {
      Residue(word, n + 1, q + 1, 0);
      Residue(word, word, 1, 0);
    }
  }

  /** So it is counting down. */
  lemma CountingDown(word: int, n: int)
    requires word > 0
    ensures (n % word - 1) % word == (n - 1) % word
  {
    var q, r := n / word, n % word;
    if r > 0 {
      Residue(word, n - 1, q, r - 1);
      Residue(word, r - 1, 0, r - 1);
    } else {
      Residue(word, n - 1, q - 1, word - 1);
      Residue(word, -1, -1, word - 1);
    }
  }

  lemma Residue(word: int, x: int, q: int, r: int)
    requires x == word * q + r && 0 <= r < word
    ensures x % word == r
  {
    Distribute(word, x / word, q);
    AtLeast(word, x / word - q);
  }

  lemma Distribute(word: int, a: int, b: int)
    ensures word * (a - b) == word * a - word * b
  {}

  lemma AtLeast(word: int, d: int)
    requires word > 0
    ensures d >= 1 ==> word * d >= word
    ensures d <= -1 ==> word * d <= -word
  {
    if d >= 1 { assert word * d >= word * 1; }
    if d <= -1 { assert word * d <= word * -1; }
  }
}
