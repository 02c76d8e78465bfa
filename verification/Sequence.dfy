/** The sequence counters and the bdSeq store (src/sequence.rs). */
module Sequence {
  import opened Base

  /** One more, wrapping from 255 to 0. */
  function Next(n: byte): byte { (n + 1) % TWO8 }

  /** The counter after `k` advances. */
  function Advanced(start: byte, k: nat): byte { (start + k) % TWO8 }

  lemma AdvancedStep(start: byte, k: nat)
    ensures Advanced(start, 0) == start && Next(Advanced(start, k)) == Advanced(start, k + 1)
  {
  }

  lemma AdvancedFrom(start: byte, k: nat)
    ensures Advanced(Next(start), k) == Advanced(start, k + 1)
  {
    assert ((start + 1) % TWO8 + k) % TWO8 == (start + 1 + k) % TWO8;
  }

  /** Two counts meet exactly when they are a multiple of 256 apart. */
  lemma AdvancedMeet(start: byte, j: nat, k: nat)
    requires j <= k
    ensures Advanced(start, j) == Advanced(start, k) <==> (k - j) % TWO8 == 0
  {
    assert start + k == (start + j) + (k - j);
  }

  /** The payload sequence number. */
  class Seq {
    var value: byte

    constructor ()
      ensures value == 0
    {
      value := 0;
    }

    method NextValue() returns (current: byte)
      modifies this
      ensures current == old(value) && value == Next(old(value))
    {
      current := value;
      value := Next(value);
    }

    method Reset()
      modifies this
      ensures value == 0
    {
      value := 0;
    }
  }

  /** The in-memory store of the next bdSeq. */
  class InMemoryBdSeqStore {
    var value: byte

    constructor (start: byte)
      ensures value == start
    {
      value := start;
    }

    method LoadNextDeath() returns (v: byte)
      ensures v == value
    {
      v := value;
    }

    method StoreNextDeath(v: byte)
      modifies this
      ensures value == v
    {
      value := v;
    }
  }
}
