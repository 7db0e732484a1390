/** The counter bank of bpf/redirect.c: a BPF array map of three 64-bit
    counters indexed by `enum counter_key`, and the `count` helper. */
module Counters {

  datatype CounterKey = IngressMatch | IngressRedirectSuccess | EgressRedirectSuccess

  /** COUNTERS_MAX_ENTRIES, the number of slots in the array map. */
  const CountersMaxEntries: nat := 3

  /** The enum value of a counter key, which is its slot in the array map. */
  function KeyIndex(k: CounterKey): (i: nat)
    ensures i < CountersMaxEntries
  {
    match k
    case IngressMatch => 0
    case IngressRedirectSuccess => 1
    case EgressRedirectSuccess => 2
  }

  /** An array map always has all of its slots. */
  type CounterBank = c: seq<nat> | |c| == CountersMaxEntries witness [0, 0, 0]

  /** Counters at attachment time. */
  const Zero: CounterBank := [0, 0, 0]

  function Get(c: CounterBank, k: CounterKey): nat
  {
    c[KeyIndex(k)]
  }

  /** `after` is `before` with each counter grown by the given amount. */
  predicate Grew(before: CounterBank, after: CounterBank, ingressMatch: nat, ingressSuccess: nat, egressSuccess: nat)
  {
    && Get(after, IngressMatch) == Get(before, IngressMatch) + ingressMatch
    && Get(after, IngressRedirectSuccess) == Get(before, IngressRedirectSuccess) + ingressSuccess
    && Get(after, EgressRedirectSuccess) == Get(before, EgressRedirectSuccess) + egressSuccess
  }

  /** `count`: add one to the slot at `key`. The array-map lookup fails for a
      key past the last slot, and then nothing changes. */
  function Count(c: CounterBank, key: nat): (c': CounterBank)
    ensures key < CountersMaxEntries ==> c'[key] == c[key] + 1
    ensures forall i :: 0 <= i < CountersMaxEntries && i != key ==> c'[i] == c[i]
    ensures key >= CountersMaxEntries ==> c' == c
  {
    if key < CountersMaxEntries then c[key := c[key] + 1] else c
  }

  // ---------------------------------------------------------------------
  // `count` as written: the 64-bit slot is reached through a 32-bit
  // pointer, so on a little-endian target the atomic add touches only the
  // low half of the counter and a carry out of it is lost.
  // ---------------------------------------------------------------------

  const U32Modulus: nat := 0x1_0000_0000
  const U64Modulus: nat := 0x1_0000_0000_0000_0000

  /** `__sync_fetch_and_add((__u32 *)p, 1)` on a little-endian `__u64` at `p`. */
  function AddOneToLowHalf(v: nat): (w: nat)
    requires v < U64Modulus
    ensures w < U64Modulus
    ensures v % U32Modulus != U32Modulus - 1 ==> w == v + 1
    ensures v % U32Modulus == U32Modulus - 1 ==> w == v + 1 - U32Modulus
  {
    (v / U32Modulus) * U32Modulus + (v % U32Modulus + 1) % U32Modulus
  }

  /** Every counter fits the map's 64-bit value. */
  predicate FitsU64(c: CounterBank)
  {
    forall i :: 0 <= i < CountersMaxEntries ==> c[i] < U64Modulus
  }

  function CountAsWritten(c: CounterBank, key: nat): (c': CounterBank)
    requires FitsU64(c)
    ensures FitsU64(c')
    ensures key < CountersMaxEntries && c[key] % U32Modulus != U32Modulus - 1 ==> c'[key] == c[key] + 1
    ensures key < CountersMaxEntries && c[key] % U32Modulus == U32Modulus - 1 ==> c'[key] == c[key] + 1 - U32Modulus
    ensures forall i :: 0 <= i < CountersMaxEntries && i != key ==> c'[i] == c[i]
    ensures key >= CountersMaxEntries ==> c' == c
  {
    if key < CountersMaxEntries then c[key := AddOneToLowHalf(c[key])] else c
  }

  /** As written, the 2^32-th increment of a counter takes it back to zero
      instead of to 2^32; the intended `Count` does not. */
  lemma CountAsWrittenLosesCarry()
    ensures CountAsWritten([U32Modulus - 1, 0, 0], 0)[0] == 0
    ensures Count([U32Modulus - 1, 0, 0], 0)[0] == U32Modulus
  {
    assert AddOneToLowHalf(U32Modulus - 1) == 0;
  }

  /** Below that point the two agree. */
  lemma CountAsWrittenAgreesBelowCarry(c: CounterBank, key: nat)
    requires FitsU64(c)
    requires key < CountersMaxEntries ==> c[key] % U32Modulus != U32Modulus - 1
    ensures CountAsWritten(c, key) == Count(c, key)
  {
  }
}
