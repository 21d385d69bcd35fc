/** Identifiers that count up as machine words do, and the tickets that stand for reply senders. */
module Identifiers {
  /** A reply sender. What is sent on it is an answer to its ticket. */
  type Ticket = nat

  /** One more than the largest machine word (src/conn.rs:59-63, src/handler/mod.rs:355-360). */
  const USIZE: nat := 0x1_0000_0000_0000_0000

  function Wrap(n: nat): nat {
    (n + 1) % USIZE
  }

  /** The word after the `n`-th is the `n + 1`-st. */
  lemma WrapCounts(n: nat)
    ensures Wrap(n % USIZE) == (n + 1) % USIZE
  {
    var q, r := n / USIZE, n % USIZE;
    assert n + 1 == USIZE * q + (r + 1);
    if r + 1 == USIZE {
      assert n + 1 == USIZE * (q + 1);
    }
  }

  /** A word counts up by one, and the largest one is followed by zero. */
  lemma WrapsAtTheLargest(n: nat)
    requires n <= 0xFFFF_FFFF_FFFF_FFFF
    ensures Wrap(n) == if n == 0xFFFF_FFFF_FFFF_FFFF then 0 else n + 1
  {
  }

  lemma WrapBelow(n: nat)
    requires n + 1 < USIZE
    ensures Wrap(n) == n + 1
  {
  }
}
