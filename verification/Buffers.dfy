/** Who owns each HC buffer.  A buffer enters in the library's hands (an allocation or a received
    event) and must leave them exactly once: to the stack with an accepted send, or freed. */
module Buffers {
  datatype Owner = Library | Stack | Freed

  /** Buffers are numbered in order of appearance.  `misused` records that a buffer was freed or
      given away while it was not the library's. */
  datatype Ledger = Ledger(owner: map<nat, Owner>, next: nat, misused: bool) {
    function Acquire(): Ledger {
      Ledger(owner[next := Library], next + 1, misused)
    }

    function HandOver(id: nat, to: Owner): Ledger {
      if id in owner && owner[id] == Library
      then this.(owner := owner[id := to])
      else this.(misused := true)
    }

    /** Every buffer seen so far has left the library's hands exactly once. */
    ghost predicate Settled() {
      Sound() && forall id: nat :: id in owner ==> owner[id] != Library
    }

    ghost predicate Sound() {
      !misused && forall id: nat :: id in owner <==> id < next
    }

    /** Exactly one buffer is still in the library's hands. */
    ghost predicate Holds(id: nat) {
      Sound() && id in owner && owner[id] == Library
      && forall other: nat :: other in owner && owner[other] == Library ==> other == id
    }
  }

  const EMPTY := Ledger(map[], 0, false)

  lemma PassThrough(l: Ledger, to: Owner)
    requires l.Settled() && to != Library
    ensures l.Acquire().HandOver(l.next, to).Settled() && l.Acquire().HandOver(l.next, to).next == l.next + 1
    ensures l.Acquire().Holds(l.next) && !l.Acquire().Settled()
  {
    assert l.next in l.Acquire().owner;
  }

  /** What happens to two different buffers can happen in either order. */
  lemma HandOverCommutes(l: Ledger, a: nat, b: nat, x: Owner, y: Owner)
    requires a != b
    ensures l.HandOver(a, x).HandOver(b, y) == l.HandOver(b, y).HandOver(a, x)
  {
    if a in l.owner && b in l.owner {
      assert l.owner[a := x][b := y] == l.owner[b := y][a := x];
    }
  }

  lemma AcquireCommutes(l: Ledger, a: nat, x: Owner)
    requires a != l.next
    ensures l.Acquire().HandOver(a, x) == l.HandOver(a, x).Acquire()
  {
    if a in l.owner {
      assert l.owner[l.next := Library][a := x] == l.owner[a := x][l.next := Library];
    }
  }
}
