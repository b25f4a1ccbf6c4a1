/**
 Consensus epochs and slots when the number of slots per epoch and the length of a slot change at given
 epochs.
 */
module ConsensusTime {

  // ---------------------------------------------------------------- products and quotients

  /** n times v. */
  function Times(n: nat, v: nat): nat {
    if n == 0 then 0 else Times(n - 1, v) + v
  }

  lemma {:induction false} TimesIsProduct(n: nat, v: nat)
    ensures Times(n, v) == n * v
  {
    if n > 0 {
      TimesIsProduct(n - 1, v);
      assert n * v == (n - 1) * v + v;
    }
  }

  lemma {:induction false} TimesGrows(m: nat, n: nat, v: nat)
    requires m < n
    ensures Times(m, v) + v <= Times(n, v)
  {
    if m + 1 < n {
      TimesGrows(m, n - 1, v);
    }
  }

  lemma {:induction false} DivRounds(a: nat, d: nat)
    requires d > 0
    ensures Times(a / d, d) <= a < Times(a / d, d) + d && a % d == a - Times(a / d, d)
  {
    TimesIsProduct(a / d, d);
  }

  lemma {:induction false} DivUnique(a: nat, d: nat, q: nat)
    requires d > 0 && Times(q, d) <= a < Times(q, d) + d
    ensures a / d == q && a % d == a - Times(q, d)
  {
    DivRounds(a, d);
    if a / d < q {
      TimesGrows(a / d, q, d);
    } else if q < a / d {
      TimesGrows(q, a / d, d);
    }
  }

  // ---------------------------------------------------------------- any schedule of epoch lengths

  /** Sum of a per-epoch quantity over the epochs before `e`. */
  function Before(s: nat -> nat, e: nat): nat {
    if e == 0 then 0 else Before(s, e - 1) + s(e - 1)
  }

  lemma {:induction false} BeforeGrows(s: nat -> nat, a: nat, b: nat)
    requires a < b
    ensures Before(s, a) + s(a) <= Before(s, b)
    decreases b
  {
    if a + 1 < b {
      BeforeGrows(s, a, b - 1);
    }
  }

  datatype EpochAndSlot = EpochAndSlot(epoch: nat, slot: nat)

  predicate Proper(slots: nat -> nat, x: EpochAndSlot) {
    1 <= x.slot <= slots(x.epoch)
  }

  ghost predicate Positive(slots: nat -> nat) {
    forall e :: slots(e) >= 1
  }

  /** Slot number counted from the first slot of epoch 0. */
  function AbsoluteSlot(slots: nat -> nat, x: EpochAndSlot): nat {
    Before(slots, x.epoch) + x.slot
  }

  function Next(slots: nat -> nat, x: EpochAndSlot): EpochAndSlot {
    if x.slot < slots(x.epoch) then x.(slot := x.slot + 1) else EpochAndSlot(x.epoch + 1, 1)
  }

  predicate Earlier(x: EpochAndSlot, y: EpochAndSlot) {
    x.epoch < y.epoch || (x.epoch == y.epoch && x.slot < y.slot)
  }

  /** The absolute slot number orders slots as time does, and different slots have different numbers. */
  lemma {:induction false} AbsoluteSlotIsMonotone(slots: nat -> nat, x: EpochAndSlot, y: EpochAndSlot)
    requires Proper(slots, x) && Proper(slots, y)
    ensures AbsoluteSlot(slots, x) < AbsoluteSlot(slots, y) <==> Earlier(x, y)
    ensures AbsoluteSlot(slots, x) == AbsoluteSlot(slots, y) <==> x == y
  {
    if x.epoch < y.epoch {
      BeforeGrows(slots, x.epoch, y.epoch);
    } else if y.epoch < x.epoch {
      BeforeGrows(slots, y.epoch, x.epoch);
    }
  }

  /** Past the last slot of an epoch comes slot 1 of the next, with the next number. */
  lemma {:induction false} NextIsSuccessor(slots: nat -> nat, x: EpochAndSlot)
    requires Positive(slots) && Proper(slots, x)
    ensures Proper(slots, Next(slots, x)) && AbsoluteSlot(slots, Next(slots, x)) == AbsoluteSlot(slots, x) + 1
  {
  }

  /** Every positive number is the number of a slot. */
  function SlotOf(slots: nat -> nat, n: nat): (x: EpochAndSlot)
    requires Positive(slots) && n >= 1
    ensures Proper(slots, x) && AbsoluteSlot(slots, x) == n
  {
    if n == 1 then EpochAndSlot(0, 1)
    else
      NextIsSuccessor(slots, SlotOf(slots, n - 1));
      Next(slots, SlotOf(slots, n - 1))
  }

  // ---------------------------------------------------------------- schedules given by forks

  /** Parameters in force from `epoch` on. */
  datatype Fork = Fork(epoch: nat, slots: nat, seconds: nat)

  predicate GoodForks(f: seq<Fork>) {
    && |f| >= 1 && f[0].epoch == 0 && f[0].slots >= 3
    && (forall i :: 0 <= i < |f| ==> f[i].slots >= 1 && f[i].seconds >= 1)
    && (forall i, k :: 0 <= i < k < |f| ==> f[i].epoch < f[k].epoch)
  }

  /** Fork i is in force in epoch e. */
  predicate InForce(f: seq<Fork>, i: nat, e: nat) {
    i < |f| && f[i].epoch <= e && (i + 1 < |f| ==> e < f[i + 1].epoch)
  }

  lemma {:induction false} SomeForkInForce(f: seq<Fork>, e: nat, n: nat)
    requires GoodForks(f) && n < |f| && (n + 1 < |f| ==> e < f[n + 1].epoch)
    ensures exists i :: InForce(f, i, e)
  {
    if f[n].epoch <= e {
      assert InForce(f, n, e);
    } else {
      SomeForkInForce(f, e, n - 1);
    }
  }

  ghost function ForkAt(f: seq<Fork>, e: nat): (i: nat)
    requires GoodForks(f)
    ensures InForce(f, i, e)
  {
    SomeForkInForce(f, e, |f| - 1);
    var i :| InForce(f, i, e);
    i
  }

  lemma {:induction false} InForceUnique(f: seq<Fork>, i: nat, k: nat, e: nat)
    requires GoodForks(f) && InForce(f, i, e) && InForce(f, k, e)
    ensures i == k
  {
  }

  /** Length in seconds of an epoch under a fork. */
  function Span(x: Fork): nat {
    Times(x.slots, x.seconds)
  }

  ghost function SlotsAt(f: seq<Fork>, e: nat): nat
    requires GoodForks(f)
  {
    f[ForkAt(f, e)].slots
  }

  /** Slots before an epoch, counted from epoch 0. */
  ghost function SlotsBefore(f: seq<Fork>, e: nat): nat
    requires GoodForks(f)
  {
    if e == 0 then 0 else SlotsBefore(f, e - 1) + SlotsAt(f, e - 1)
  }

  /** Start of an epoch, in seconds from the start of epoch 0. */
  ghost function Start(f: seq<Fork>, e: nat): nat
    requires GoodForks(f)
  {
    if e == 0 then 0 else Start(f, e - 1) + Span(f[ForkAt(f, e - 1)])
  }

  /** In the reign of fork i, the slots before an epoch are counted with that fork's epochs. */
  lemma {:induction false} SlotsInFork(f: seq<Fork>, i: nat, e: nat)
    requires GoodForks(f) && i < |f| && f[i].epoch <= e && (i + 1 < |f| ==> e <= f[i + 1].epoch)
    ensures SlotsBefore(f, e) == SlotsBefore(f, f[i].epoch) + Times(e - f[i].epoch, f[i].slots)
  {
    if e > f[i].epoch {
      SlotsInFork(f, i, e - 1);
      InForceUnique(f, i, ForkAt(f, e - 1), e - 1);
    }
  }

  /** And so are the seconds. */
  lemma {:induction false} SpansInFork(f: seq<Fork>, i: nat, e: nat)
    requires GoodForks(f) && i < |f| && f[i].epoch <= e && (i + 1 < |f| ==> e <= f[i + 1].epoch)
    ensures Start(f, e) == Start(f, f[i].epoch) + Times(e - f[i].epoch, Span(f[i]))
  {
    if e > f[i].epoch {
      SpansInFork(f, i, e - 1);
      InForceUnique(f, i, ForkAt(f, e - 1), e - 1);
    }
  }

  /** The loop over forks the node uses to number slots: it stops at the last fork before the epoch. */
  method ForkSlots(f: seq<Fork>, e: nat) returns (i: nat, n: nat)
    requires GoodForks(f)
    ensures i < |f| && f[i].epoch <= e && (i + 1 < |f| ==> e <= f[i + 1].epoch)
    ensures n == SlotsBefore(f, f[i].epoch)
  {
    i, n := 0, 0;
    while i + 1 < |f| && e > f[i + 1].epoch
      invariant i < |f| && f[i].epoch <= e
      invariant n == SlotsBefore(f, f[i].epoch)
    {
      SlotsInFork(f, i, f[i + 1].epoch);
      n := n + Times(f[i + 1].epoch - f[i].epoch, f[i].slots);
      i := i + 1;
    }
  }

  method AbsoluteSlotNumber(f: seq<Fork>, x: EpochAndSlot) returns (n: nat)
    requires GoodForks(f)
    ensures n == SlotsBefore(f, x.epoch) + x.slot
  {
    var i, behind := ForkSlots(f, x.epoch);
    SlotsInFork(f, i, x.epoch);
    n := behind + Times(x.epoch - f[i].epoch, f[i].slots) + x.slot;
  }

  // ---------------------------------------------------------------- time
  // Seconds are counted from the start of epoch 0, one epoch before the virtual genesis time.

  /** The epoch an instant belongs to. */
  ghost predicate InEpoch(f: seq<Fork>, u: nat, e: nat)
    requires GoodForks(f)
  {
    Start(f, e) <= u < Start(f, e + 1)
  }

  /** The slot of epoch `e` an instant belongs to. */
  ghost predicate InSlot(f: seq<Fork>, u: nat, x: EpochAndSlot)
    requires GoodForks(f)
  {
    var k := f[ForkAt(f, x.epoch)];
    && InEpoch(f, u, x.epoch) && 1 <= x.slot <= k.slots
    && Times(x.slot - 1, k.seconds) <= u - Start(f, x.epoch) < Times(x.slot, k.seconds)
  }

  lemma {:induction false} StartGrows(f: seq<Fork>, a: nat, b: nat)
    requires GoodForks(f) && a < b
    ensures Start(f, a) + Span(f[ForkAt(f, a)]) <= Start(f, b)
  {
    if a + 1 < b {
      StartGrows(f, a, b - 1);
    }
  }

  lemma {:induction false} InEpochUnique(f: seq<Fork>, u: nat, a: nat, b: nat)
    requires GoodForks(f) && InEpoch(f, u, a) && InEpoch(f, u, b)
    ensures a == b
  {
    if a < b {
      StartGrows(f, a, b);
    } else if b < a {
      StartGrows(f, b, a);
    }
  }

  /** The genesis block stands in the last slot of epoch 1. */
  function GenesisTime(f: seq<Fork>): int
    requires GoodForks(f)
  {
    2 * Span(f[0]) - f[0].seconds
  }

  /** With all other forks later, the genesis block stands in the last slot of epoch 1. */
  lemma {:induction false} GenesisInLastSlot(f: seq<Fork>)
    requires GoodForks(f) && (|f| > 1 ==> f[1].epoch >= 2)
    ensures GenesisTime(f) == Timestamp(f, EpochAndSlot(1, f[0].slots)) >= 0
    ensures InSlot(f, GenesisTime(f), EpochAndSlot(1, f[0].slots))
  {
    InForceUnique(f, 0, ForkAt(f, 0), 0);
    InForceUnique(f, 0, ForkAt(f, 1), 1);
    SpansInFork(f, 0, 1);
    SpansInFork(f, 0, 2);
    TimesIsProduct(1, Span(f[0]));
    TimesIsProduct(2, Span(f[0]));
    assert Span(f[0]) == Times(f[0].slots - 1, f[0].seconds) + f[0].seconds;
  }

  /** The fork of an epoch and the seconds accumulated before that fork, fork by fork. */
  method ForkStart(f: seq<Fork>, e: nat) returns (i: nat, behind: nat)
    requires GoodForks(f)
    ensures InForce(f, i, e) && behind == Start(f, f[i].epoch)
  {
    i, behind := 0, 0;
    while i + 1 < |f| && e >= f[i + 1].epoch
      invariant i < |f| && f[i].epoch <= e
      invariant behind == Start(f, f[i].epoch)
    {
      SpansInFork(f, i, f[i + 1].epoch);
      behind := behind + Times(f[i + 1].epoch - f[i].epoch, Span(f[i]));
      i := i + 1;
    }
  }

  /** The timestamp of a slot. */
  method TimestampOf(f: seq<Fork>, x: EpochAndSlot) returns (u: nat)
    requires GoodForks(f) && x.slot >= 1
    ensures u == Timestamp(f, x)
  {
    var i, behind := ForkStart(f, x.epoch);
    SpansInFork(f, i, x.epoch);
    InForceUnique(f, i, ForkAt(f, x.epoch), x.epoch);
    u := behind + Times(x.epoch - f[i].epoch, Span(f[i])) + Times(x.slot - 1, f[i].seconds);
  }

  ghost function Timestamp(f: seq<Fork>, x: EpochAndSlot): nat
    requires GoodForks(f) && x.slot >= 1
  {
    Start(f, x.epoch) + Times(x.slot - 1, f[ForkAt(f, x.epoch)].seconds)
  }

  /** When a fork becomes active; the first one counts from the virtual genesis time. */
  ghost function Activation(f: seq<Fork>, i: nat): nat
    requires GoodForks(f) && i < |f|
  {
    if i == 0 then Span(f[0]) else Start(f, f[i].epoch)
  }

  /** Fork i is the last one that became active before `u`, or the first of all. */
  ghost predicate LastActive(f: seq<Fork>, i: nat, u: int)
    requires GoodForks(f)
  {
    i < |f| && (i > 0 ==> Activation(f, i) < u) && (i + 1 < |f| ==> u <= Activation(f, i + 1))
  }

  /** The activation times the node computes when it starts. */
  ghost predicate AreActivations(f: seq<Fork>, times: seq<nat>)
    requires GoodForks(f)
  {
    |times| == |f| && forall i :: 0 <= i < |f| ==> times[i] == Activation(f, i)
  }

  method ActivationTimes(f: seq<Fork>) returns (times: seq<nat>)
    requires GoodForks(f)
    ensures AreActivations(f, times)
  {
    times := [Span(f[0])];
    for i := 1 to |f|
      invariant |times| == i
      invariant forall k :: 0 <= k < i ==> times[k] == Activation(f, k)
    {
      var t := TimestampOf(f, EpochAndSlot(f[i].epoch, 1));
      times := times + [t];
    }
  }

  /** The loop over activation times. */
  method FindActive(f: seq<Fork>, times: seq<nat>, u: int) returns (i: nat)
    requires GoodForks(f) && AreActivations(f, times)
    ensures LastActive(f, i, u)
  {
    ActivationsGrow(f);
    var n := 0;
    while n < |f| && u > times[n]
      invariant 0 <= n <= |f|
      invariant n > 0 ==> Activation(f, n - 1) < u
    {
      n := n + 1;
    }
    i := if n == 0 then 0 else n - 1;
    assert n == 0 && |f| > 1 ==> u <= times[0] <= times[1];
  }

  lemma {:induction false} SpanOfEpochZero(f: seq<Fork>)
    requires GoodForks(f)
    ensures Start(f, 0) == 0 && Start(f, 1) == Span(f[0])
  {
    InForceUnique(f, 0, ForkAt(f, 0), 0);
    assert Start(f, 1) == Start(f, 0) + Span(f[ForkAt(f, 0)]);
  }

  lemma {:induction false} ActivationsGrow(f: seq<Fork>)
    requires GoodForks(f)
    ensures |f| > 1 ==> Activation(f, 0) <= Activation(f, 1)
  {
    SpanOfEpochZero(f);
    if |f| > 1 && f[1].epoch > 1 {
      StartGrows(f, 1, f[1].epoch);
    }
  }

  lemma {:induction false} SpanIsPositive(x: Fork)
    requires x.slots >= 1 && x.seconds >= 1
    ensures Span(x) >= x.seconds >= 1
  {
    assert Times(x.slots, x.seconds) == Times(x.slots - 1, x.seconds) + x.seconds;
  }

  lemma {:induction false} GenesisAfterFirstEpoch(f: seq<Fork>)
    requires GoodForks(f)
    ensures GenesisTime(f) - f[0].seconds > Span(f[0]) && Span(f[0]) > 2 * f[0].seconds
  {
    TimesGrows(2, f[0].slots, f[0].seconds);
    TimesIsProduct(2, f[0].seconds);
  }

  /** Epoch number as the node computes it from fork i, with one added for the first fork. */
  ghost function ComputedEpoch(f: seq<Fork>, i: nat, u: nat): int
    requires GoodForks(f) && i < |f|
  {
    SpanIsPositive(f[i]);
    f[i].epoch + (u - Activation(f, i)) / Span(f[i]) + if i == 0 then 1 else 0
  }

  /** Epoch of an instant; the fork is the one active a slot of the first fork earlier. */
  method EpochOf(f: seq<Fork>, times: seq<nat>, u: nat) returns (e: int, i: nat)
    requires GoodForks(f) && AreActivations(f, times)
    ensures LastActive(f, i, u - f[0].seconds) && e == ComputedEpoch(f, i, u)
  {
    i := FindActive(f, times, u - f[0].seconds);
    SpanIsPositive(f[i]);
    e := f[i].epoch + (u - times[i]) / Span(f[i]) + if f[i].epoch == 0 then 1 else 0;
  }

  /** `e` is the number of the epoch reached at `u` if fork i goes on. */
  ghost predicate Reaches(f: seq<Fork>, i: nat, e: int, u: nat)
    requires GoodForks(f) && i < |f|
  {
    && f[i].epoch <= e
    && Times(e - f[i].epoch, Span(f[i])) <= u - Start(f, f[i].epoch) < Times(e - f[i].epoch, Span(f[i])) + Span(f[i])
  }

  lemma {:induction false} ComputedReaches(f: seq<Fork>, i: nat, u: nat)
    requires GoodForks(f) && i < |f| && u >= Activation(f, i)
    ensures Reaches(f, i, ComputedEpoch(f, i, u), u)
  {
    SpanIsPositive(f[i]);
    DivRounds(u - Activation(f, i), Span(f[i]));
    if i == 0 {
      var q := (u - Span(f[0])) / Span(f[0]);
      assert Times(q + 1, Span(f[0])) == Times(q, Span(f[0])) + Span(f[0]);
    }
  }

  /** Fork g is the one used for the epoch of the genesis block. */
  ghost predicate GenesisFork(f: seq<Fork>, g: nat)
    requires GoodForks(f)
  {
    LastActive(f, g, GenesisTime(f) - f[0].seconds)
  }

  /** An epoch of fork i is longer than one slot of the first fork. */
  predicate Long(f: seq<Fork>, i: nat)
    requires GoodForks(f) && i < |f|
  {
    Span(f[i]) > f[0].seconds
  }

  /** If there are forks after g, the epochs of g and of all later ones are long. */
  predicate LongFrom(f: seq<Fork>, g: nat)
    requires GoodForks(f)
  {
    g + 1 < |f| ==> forall i :: g <= i < |f| ==> Long(f, i)
  }

  lemma {:induction false} NextStart(f: seq<Fork>, i: nat, e: nat)
    requires GoodForks(f) && InForce(f, i, e)
    ensures Start(f, e + 1) == Start(f, e) + Span(f[i])
  {
    InForceUnique(f, i, ForkAt(f, e), e);
  }

  /** As many epochs of fork i after its start as fit into the time since then. */
  lemma {:induction false} EpochInFork(f: seq<Fork>, i: nat, e: nat, u: nat)
    requires GoodForks(f) && InForce(f, i, e)
    requires Times(e - f[i].epoch, Span(f[i])) <= u - Start(f, f[i].epoch)
    requires u - Start(f, f[i].epoch) < Times(e - f[i].epoch, Span(f[i])) + Span(f[i])
    ensures InEpoch(f, u, e)
  {
    SpansInFork(f, i, e);
    NextStart(f, i, e);
  }

  lemma {:induction false} TimesUnique(a: int, d: nat, p: nat, q: nat)
    requires Times(p, d) <= a < Times(p, d) + d && Times(q, d) <= a < Times(q, d) + d
    ensures p == q
  {
    if p < q {
      TimesGrows(p, q, d);
    } else if q < p {
      TimesGrows(q, p, d);
    }
  }

  /** In the first seconds of a fork the fork before it still gives that fork's epoch. */
  lemma {:induction false} EpochAtForkStart(f: seq<Fork>, i: nat, e: int, u: nat)
    requires GoodForks(f) && i + 1 < |f| && Reaches(f, i, e, u) && Span(f[i]) > f[0].seconds
    requires Start(f, f[i + 1].epoch) <= u <= Start(f, f[i + 1].epoch) + f[0].seconds
    ensures e == f[i + 1].epoch
  {
    SpansInFork(f, i, f[i + 1].epoch);
    TimesUnique(u - Start(f, f[i].epoch), Span(f[i]), e - f[i].epoch, f[i + 1].epoch - f[i].epoch);
  }

  lemma {:induction false} FirstEpochOfFork(f: seq<Fork>, i: nat, u: nat)
    requires GoodForks(f) && i < |f| && Start(f, f[i].epoch) <= u
    ensures InEpoch(f, u, f[i].epoch) <==> u < Start(f, f[i].epoch) + Span(f[i])
  {
    NextStart(f, i, f[i].epoch);
  }

  /** Before the next fork, the epoch reached is in the reign of fork i. */
  lemma {:induction false} EpochBeforeNextFork(f: seq<Fork>, i: nat, e: nat, u: nat)
    requires GoodForks(f) && i < |f| && Reaches(f, i, e, u)
    requires i + 1 < |f| ==> u < Start(f, f[i + 1].epoch)
    ensures InForce(f, i, e)
  {
    if i + 1 < |f| {
      SpansInFork(f, i, f[i + 1].epoch);
      if e > f[i + 1].epoch {
        TimesGrows(f[i + 1].epoch - f[i].epoch, e - f[i].epoch, Span(f[i]));
      }
    }
  }

  lemma {:induction false} ReachedIsRight(f: seq<Fork>, i: nat, e: nat, u: nat)
    requires GoodForks(f) && i < |f| && Reaches(f, i, e, u)
    requires i + 1 < |f| ==>
      && Span(f[i]) > f[0].seconds && Span(f[i + 1]) > f[0].seconds
      && u <= Start(f, f[i + 1].epoch) + f[0].seconds
    ensures InEpoch(f, u, e)
  {
    if i + 1 < |f| && u >= Start(f, f[i + 1].epoch) {
      EpochAtForkStart(f, i, e, u);
      FirstEpochOfFork(f, i + 1, u);
    } else {
      EpochBeforeNextFork(f, i, e, u);
      EpochInFork(f, i, e, u);
    }
  }

  lemma {:induction false} ActivationMonotone(f: seq<Fork>, i: nat, k: nat)
    requires GoodForks(f) && 1 <= i <= k < |f|
    ensures Activation(f, i) <= Activation(f, k)
    ensures i < k ==> Activation(f, i) < Activation(f, k)
  {
    if i < k {
      SpanIsPositive(f[ForkAt(f, f[i].epoch)]);
      StartGrows(f, f[i].epoch, f[k].epoch);
    }
  }

  /** Later instants use later forks. */
  lemma {:induction false} LaterFork(f: seq<Fork>, g: nat, x: int, i: nat, y: int)
    requires GoodForks(f) && LastActive(f, g, x) && LastActive(f, i, y) && x <= y
    ensures g <= i
  {
    if i < g {
      ActivationMonotone(f, i + 1, g);
    }
  }

  /** From the genesis block on, the computed epoch is the one the instant belongs to, provided the epochs
      of the genesis fork, if others follow, and of all later ones are longer than one slot of the first. */
  lemma {:induction false} EpochIsRight(f: seq<Fork>, g: nat, i: nat, u: nat)
    requires GoodForks(f) && GenesisFork(f, g) && LongFrom(f, g)
    requires u >= GenesisTime(f) && LastActive(f, i, u - f[0].seconds)
    ensures ComputedEpoch(f, i, u) >= 0 && InEpoch(f, u, ComputedEpoch(f, i, u))
  {
    LaterFork(f, g, GenesisTime(f) - f[0].seconds, i, u - f[0].seconds);
    GenesisAfterFirstEpoch(f);
    ComputedReaches(f, i, u);
    assert i + 1 < |f| ==> Long(f, i) && Long(f, i + 1);
    ReachedIsRight(f, i, ComputedEpoch(f, i, u), u);
  }

  /** Just when a fork after genesis starts, the one before it is still used. */
  lemma {:induction false} ForkStartsAfterGenesis(f: seq<Fork>, g: nat, i: nat)
    requires GoodForks(f) && GenesisFork(f, g) && g < i < |f|
    ensures Start(f, f[i].epoch) + f[0].seconds >= GenesisTime(f)
    ensures LastActive(f, i - 1, Start(f, f[i].epoch)) && Start(f, f[i].epoch) >= Activation(f, i - 1)
  {
    GenesisAfterFirstEpoch(f);
    ActivationMonotone(f, g + 1, i);
    if i > 1 {
      ActivationMonotone(f, i - 1, i);
    }
  }

  lemma {:induction false} WrongOneSlotLater(f: seq<Fork>, i: nat, u: nat)
    requires GoodForks(f) && 1 <= i < |f| && u == Start(f, f[i].epoch) + f[0].seconds && u >= Activation(f, i - 1)
    requires Long(f, i - 1) != Long(f, i)
    ensures ComputedEpoch(f, i - 1, u) >= 0 && !InEpoch(f, u, ComputedEpoch(f, i - 1, u))
  {
    ComputedReaches(f, i - 1, u);
    FirstEpochOfFork(f, i, u);
    if Long(f, i - 1) {
      EpochAtForkStart(f, i - 1, ComputedEpoch(f, i - 1, u), u);
    } else {
      PastForkStart(f, i - 1, ComputedEpoch(f, i - 1, u), u);
      InEpochElsewhere(f, u, f[i].epoch, ComputedEpoch(f, i - 1, u));
    }
  }

  /** A fork with short epochs has counted past the next fork's first epoch by then. */
  lemma {:induction false} PastForkStart(f: seq<Fork>, i: nat, e: int, u: nat)
    requires GoodForks(f) && i + 1 < |f| && Reaches(f, i, e, u) && !Long(f, i)
    requires u == Start(f, f[i + 1].epoch) + f[0].seconds
    ensures e > f[i + 1].epoch
  {
    SpansInFork(f, i, f[i + 1].epoch);
    if e <= f[i + 1].epoch {
      TimesMonotone(e - f[i].epoch, f[i + 1].epoch - f[i].epoch, Span(f[i]));
    }
  }

  lemma {:induction false} TimesMonotone(p: nat, q: nat, d: nat)
    requires p <= q
    ensures Times(p, d) <= Times(q, d)
  {
    if p < q {
      TimesGrows(p, q, d);
    }
  }

  lemma {:induction false} InEpochElsewhere(f: seq<Fork>, u: nat, a: nat, b: nat)
    requires GoodForks(f) && InEpoch(f, u, a) && a != b
    ensures !InEpoch(f, u, b)
  {
    if InEpoch(f, u, b) {
      InEpochUnique(f, u, a, b);
    }
  }

  /** Otherwise it is wrong one slot after the start of a fork whose epochs are long where those of the fork
      before are not, or the other way round. */
  lemma {:induction false} ShortEpochIsWrong(f: seq<Fork>, g: nat, i: nat)
    requires GoodForks(f) && GenesisFork(f, g) && g < i < |f| && Long(f, i - 1) != Long(f, i)
    ensures var u := Start(f, f[i].epoch) + f[0].seconds;
      u >= GenesisTime(f) && LastActive(f, i - 1, u - f[0].seconds) && ComputedEpoch(f, i - 1, u) >= 0
      && !InEpoch(f, u, ComputedEpoch(f, i - 1, u))
  {
    ForkStartsAfterGenesis(f, g, i);
    WrongOneSlotLater(f, i, Start(f, f[i].epoch) + f[0].seconds);
  }

  /** The computed epoch is right at every instant. */
  ghost predicate EpochsAlwaysRight(f: seq<Fork>)
    requires GoodForks(f)
  {
    forall i, u: nat :: u >= GenesisTime(f) && LastActive(f, i, u - f[0].seconds) ==>
      ComputedEpoch(f, i, u) >= 0 && InEpoch(f, u, ComputedEpoch(f, i, u))
  }

  /** Within one slot of the first fork after the start of fork i, instants that still use the fork before. */
  ghost predicate Overlap(f: seq<Fork>, i: nat, u: nat)
    requires GoodForks(f) && 1 <= i < |f|
  {
    && GenesisTime(f) <= u && Start(f, f[i].epoch) <= u <= Start(f, f[i].epoch) + f[0].seconds
    && LastActive(f, i - 1, u - f[0].seconds)
  }

  /** Epochs counted on with the length of the fork before. */
  ghost function CountedOn(f: seq<Fork>, i: nat, u: nat): nat
    requires GoodForks(f) && 1 <= i < |f| && u >= Start(f, f[i].epoch)
  {
    SpanIsPositive(f[i - 1]);
    f[i].epoch + (u - Start(f, f[i].epoch)) / Span(f[i - 1])
  }

  lemma {:induction false} FirstForkCountsOn(e: nat, d: nat, u: nat)
    requires d > 0 && e >= 1 && Times(e, d) <= u
    ensures u >= d && (u - d) / d + 1 == e + (u - Times(e, d)) / d
  {
    assert Times(e, d) == Times(e - 1, d) + d;
    DivAdd(u - d, d, e - 1);
  }

  lemma {:induction false} ComputedIsCountedOn(f: seq<Fork>, i: nat, u: nat)
    requires GoodForks(f) && 1 <= i < |f| && u >= Start(f, f[i].epoch)
    ensures ComputedEpoch(f, i - 1, u) == CountedOn(f, i, u)
  {
    SpanIsPositive(f[i - 1]);
    SpansInFork(f, i - 1, f[i].epoch);
    if i == 1 {
      FirstForkCountsOn(f[1].epoch, Span(f[0]), u);
    } else {
      DivAdd(u - Start(f, f[i - 1].epoch), Span(f[i - 1]), f[i].epoch - f[i - 1].epoch);
    }
  }

  lemma {:induction false} DivAdd(a: nat, d: nat, q: nat)
    requires d > 0 && Times(q, d) <= a
    ensures a / d == q + (a - Times(q, d)) / d
  {
    var m := (a - Times(q, d)) / d;
    DivRounds(a - Times(q, d), d);
    TimesAdd(q, m, d);
    DivUnique(a, d, q + m);
  }

  lemma {:induction false} TimesAdd(a: nat, b: nat, d: nat)
    ensures Times(a + b, d) == Times(a, d) + Times(b, d)
  {
    if b > 0 {
      TimesAdd(a, b - 1, d);
    }
  }

  /** In the first slot after each fork, counting on with the fork before gives the right epoch. */
  ghost predicate RightAfterForks(f: seq<Fork>)
    requires GoodForks(f)
  {
    forall i, u: nat :: 1 <= i < |f| && Overlap(f, i, u) ==> InEpoch(f, u, CountedOn(f, i, u))
  }

  lemma {:induction false} RightBeforeNextFork(f: seq<Fork>, i: nat, u: nat)
    requires GoodForks(f) && u >= GenesisTime(f) && LastActive(f, i, u - f[0].seconds)
    requires i + 1 < |f| ==> u < Start(f, f[i + 1].epoch)
    ensures ComputedEpoch(f, i, u) >= 0 && InEpoch(f, u, ComputedEpoch(f, i, u))
  {
    GenesisAfterFirstEpoch(f);
    ComputedReaches(f, i, u);
    EpochBeforeNextFork(f, i, ComputedEpoch(f, i, u), u);
    EpochInFork(f, i, ComputedEpoch(f, i, u), u);
  }

  /** For any forks the numbering is right at every instant if and only if it is right within one slot of the
      first fork after the start of each fork, where the node still counts on with the fork before. */
  lemma {:induction false} EpochsRightAtForksIff(f: seq<Fork>)
    requires GoodForks(f)
    ensures EpochsAlwaysRight(f) <==> RightAfterForks(f)
  {
    if EpochsAlwaysRight(f) {
      forall i, u: nat | 1 <= i < |f| && Overlap(f, i, u) ensures InEpoch(f, u, CountedOn(f, i, u)) {
        ComputedIsCountedOn(f, i, u);
        assert LastActive(f, i - 1, u - f[0].seconds);
      }
    }
    if RightAfterForks(f) {
      forall i: nat, u: nat | u >= GenesisTime(f) && LastActive(f, i, u - f[0].seconds)
        ensures ComputedEpoch(f, i, u) >= 0 && InEpoch(f, u, ComputedEpoch(f, i, u))
      {
        if i + 1 < |f| && u >= Start(f, f[i + 1].epoch) {
          assert Overlap(f, i + 1, u);
          ComputedIsCountedOn(f, i + 1, u);
        } else {
          RightBeforeNextFork(f, i, u);
        }
      }
    }
  }

  /** Unless all epochs since genesis are short, the numbering is right at every instant exactly when all
      of them are longer than a slot of the first fork, or the fork at genesis is the last one. */
  lemma {:induction false} EpochsRightIff(f: seq<Fork>, g: nat)
    requires GoodForks(f) && GenesisFork(f, g)
    requires g + 1 < |f| ==> exists i :: g <= i < |f| && Long(f, i)
    ensures EpochsAlwaysRight(f) <==> LongFrom(f, g)
  {
    if LongFrom(f, g) {
      forall i, u: nat | u >= GenesisTime(f) && LastActive(f, i, u - f[0].seconds)
        ensures ComputedEpoch(f, i, u) >= 0 && InEpoch(f, u, ComputedEpoch(f, i, u))
      {
        EpochIsRight(f, g, i, u);
      }
    } else {
      var i := Change(f, g);
      ShortEpochIsWrong(f, g, i);
    }
  }

  /** A fork at which long epochs follow short ones or short ones follow long ones. */
  lemma {:induction false} Change(f: seq<Fork>, g: nat) returns (i: nat)
    requires GoodForks(f) && !LongFrom(f, g) && exists i :: g <= i < |f| && Long(f, i)
    ensures g < i < |f| && Long(f, i - 1) != Long(f, i)
  {
    i := g + 1;
    while i < |f| && Long(f, i - 1) == Long(f, i)
      invariant g < i <= |f|
      invariant forall k :: g <= k < i ==> Long(f, k) == Long(f, g)
    {
      i := i + 1;
    }
  }

  /** When all forks come after the genesis epoch, the first fork is the genesis fork and its epochs are
      long. */
  lemma {:induction false} LaterForksOnly(f: seq<Fork>)
    requires GoodForks(f) && (|f| > 1 ==> f[1].epoch >= 2)
    ensures GenesisFork(f, 0) && Long(f, 0)
  {
    GenesisAfterFirstEpoch(f);
    if |f| > 1 {
      SpansInFork(f, 0, f[1].epoch);
      TimesGrows(1, f[1].epoch, Span(f[0]));
      TimesIsProduct(1, Span(f[0]));
    }
  }

  /** When all forks come after the genesis epoch, every epoch must be longer than a slot of the first fork. */
  lemma {:induction false} LaterForksRightIff(f: seq<Fork>)
    requires GoodForks(f) && (|f| > 1 ==> f[1].epoch >= 2)
    ensures EpochsAlwaysRight(f) <==> forall i :: 0 <= i < |f| ==> Long(f, i)
  {
    LaterForksOnly(f);
    EpochsRightIff(f, 0);
  }

  // ---------------------------------------------------------------- slots of an instant

  /** Slot number as the node computes it from fork i. */
  ghost function ComputedSlot(f: seq<Fork>, i: nat, u: nat): nat
    requires GoodForks(f) && i < |f| && u >= Activation(f, i)
  {
    SpanIsPositive(f[i]);
    ((u - Activation(f, i)) % Span(f[i])) / f[i].seconds + 1
  }

  /** Slot of an instant; here the fork is the one active at the instant itself. */
  method SlotOfTime(f: seq<Fork>, times: seq<nat>, u: nat) returns (slot: nat, i: nat)
    requires GoodForks(f) && AreActivations(f, times) && u >= GenesisTime(f)
    ensures LastActive(f, i, u) && u >= Activation(f, i) && slot == ComputedSlot(f, i, u)
  {
    GenesisAfterFirstEpoch(f);
    i := FindActive(f, times, u);
    SpanIsPositive(f[i]);
    slot := ((u - times[i]) % Span(f[i])) / f[i].seconds + 1;
  }

  /** The remainder is the time since the epoch started, if fork i goes on. */
  lemma {:induction false} Remainder(f: seq<Fork>, i: nat, e: nat, u: nat)
    requires GoodForks(f) && i < |f| && Reaches(f, i, e, u) && u >= Activation(f, i)
    ensures Span(f[i]) > 0
    ensures (u - Activation(f, i)) % Span(f[i]) == u - Start(f, f[i].epoch) - Times(e - f[i].epoch, Span(f[i]))
  {
    SpanIsPositive(f[i]);
    if i == 0 {
      assert e >= 1 && Times(e, Span(f[0])) == Times(e - 1, Span(f[0])) + Span(f[0]);
      DivUnique(u - Span(f[0]), Span(f[0]), e - 1);
    } else {
      DivUnique(u - Activation(f, i), Span(f[i]), e - f[i].epoch);
    }
  }

  /** Splitting the time since the start of an epoch into slots. */
  lemma {:induction false} SlotOfOffset(x: Fork, r: nat)
    requires x.slots >= 1 && x.seconds >= 1 && r < Span(x)
    ensures 1 <= r / x.seconds + 1 <= x.slots
    ensures Times(r / x.seconds, x.seconds) <= r < Times(r / x.seconds + 1, x.seconds)
  {
    DivRounds(r, x.seconds);
    if r / x.seconds > x.slots {
      TimesGrows(x.slots, r / x.seconds, x.seconds);
    }
  }

  lemma {:induction false} SlotInReign(f: seq<Fork>, i: nat, e: nat, u: nat)
    requires GoodForks(f) && InForce(f, i, e) && Reaches(f, i, e, u) && u >= Activation(f, i)
    ensures InSlot(f, u, EpochAndSlot(e, ComputedSlot(f, i, u)))
  {
    EpochInFork(f, i, e, u);
    SpansInFork(f, i, e);
    InForceUnique(f, i, ForkAt(f, e), e);
    Remainder(f, i, e, u);
    SlotOfOffset(f[i], u - Start(f, e));
  }

  /** When a fork becomes active, the fork before it computes slot 1. */
  lemma {:induction false} ComputedAtForkStart(f: seq<Fork>, i: nat, u: nat)
    requires GoodForks(f) && i + 1 < |f| && u == Start(f, f[i + 1].epoch) && u >= Activation(f, i)
    ensures ComputedSlot(f, i, u) == 1
  {
    SpanIsPositive(f[i]);
    SpansInFork(f, i, f[i + 1].epoch);
    Remainder(f, i, f[i + 1].epoch, u);
  }

  lemma {:induction false} FirstSlotOfFork(f: seq<Fork>, i: nat)
    requires GoodForks(f) && i < |f|
    ensures InSlot(f, Start(f, f[i].epoch), EpochAndSlot(f[i].epoch, 1))
  {
    SpanIsPositive(f[i]);
    FirstEpochOfFork(f, i, Start(f, f[i].epoch));
    InForceUnique(f, i, ForkAt(f, f[i].epoch), f[i].epoch);
    TimesIsProduct(1, f[i].seconds);
  }

  /** The computed slot is the one the instant belongs to, without any condition on the forks. */
  lemma {:induction false} SlotIsRight(f: seq<Fork>, i: nat, e: nat, u: nat)
    requires GoodForks(f) && LastActive(f, i, u) && u >= Activation(f, i) && InEpoch(f, u, e)
    ensures InSlot(f, u, EpochAndSlot(e, ComputedSlot(f, i, u)))
  {
    if i + 1 < |f| && u == Start(f, f[i + 1].epoch) {
      ComputedAtForkStart(f, i, u);
      FirstSlotOfFork(f, i + 1);
      InEpochUnique(f, u, e, f[i + 1].epoch);
    } else {
      var c := ComputedEpoch(f, i, u);
      ComputedReaches(f, i, u);
      EpochBeforeNextFork(f, i, c, u);
      EpochInFork(f, i, c, u);
      InEpochUnique(f, u, e, c);
      SlotInReign(f, i, e, u);
    }
  }

  // ---------------------------------------------------------------- round trip

  lemma {:induction false} TimestampInSlot(f: seq<Fork>, x: EpochAndSlot)
    requires GoodForks(f) && 1 <= x.slot <= f[ForkAt(f, x.epoch)].slots
    ensures InSlot(f, Timestamp(f, x), x)
  {
    var k := f[ForkAt(f, x.epoch)];
    NextStart(f, ForkAt(f, x.epoch), x.epoch);
    assert Times(x.slot, k.seconds) == Times(x.slot - 1, k.seconds) + k.seconds;
    if x.slot < k.slots {
      TimesGrows(x.slot, k.slots, k.seconds);
    }
  }

  lemma {:induction false} InSlotUnique(f: seq<Fork>, u: nat, x: EpochAndSlot, y: EpochAndSlot)
    requires GoodForks(f) && InSlot(f, u, x) && InSlot(f, u, y)
    ensures x == y
  {
    InEpochUnique(f, u, x.epoch, y.epoch);
    var k := f[ForkAt(f, x.epoch)];
    assert Times(x.slot, k.seconds) == Times(x.slot - 1, k.seconds) + k.seconds;
    assert Times(y.slot, k.seconds) == Times(y.slot - 1, k.seconds) + k.seconds;
    TimesUnique(u - Start(f, x.epoch), k.seconds, x.slot - 1, y.slot - 1);
  }

  /** The timestamp of a slot leads back to that slot. */
  lemma {:induction false} RoundTrip(f: seq<Fork>, g: nat, x: EpochAndSlot, i: nat, k: nat)
    requires GoodForks(f) && GenesisFork(f, g) && LongFrom(f, g)
    requires 1 <= x.slot <= f[ForkAt(f, x.epoch)].slots && Timestamp(f, x) >= GenesisTime(f)
    requires LastActive(f, i, Timestamp(f, x) - f[0].seconds) && LastActive(f, k, Timestamp(f, x))
    ensures Timestamp(f, x) >= Activation(f, k)
    ensures ComputedEpoch(f, i, Timestamp(f, x)) == x.epoch && ComputedSlot(f, k, Timestamp(f, x)) == x.slot
  {
    var u := Timestamp(f, x);
    TimestampInSlot(f, x);
    GenesisAfterFirstEpoch(f);
    EpochIsRight(f, g, i, u);
    InEpochUnique(f, u, x.epoch, ComputedEpoch(f, i, u));
    SlotIsRight(f, k, x.epoch, u);
    InSlotUnique(f, u, x, EpochAndSlot(x.epoch, ComputedSlot(f, k, u)));
  }

  // ---------------------------------------------------------------- slot numbers under forks

  ghost function Slots(f: seq<Fork>): nat -> nat
    requires GoodForks(f)
  {
    e => SlotsAt(f, e)
  }

  lemma {:induction false} SlotsBeforeIsBefore(f: seq<Fork>, e: nat)
    requires GoodForks(f)
    ensures SlotsBefore(f, e) == Before(Slots(f), e)
  {
    if e > 0 {
      SlotsBeforeIsBefore(f, e - 1);
    }
  }

  /** Under any forks, slot numbers and slots correspond one to one and in order. */
  lemma {:induction false} ForkSlotsInOrder(f: seq<Fork>, x: EpochAndSlot, y: EpochAndSlot)
    requires GoodForks(f) && Proper(Slots(f), x) && Proper(Slots(f), y)
    ensures SlotsBefore(f, x.epoch) + x.slot < SlotsBefore(f, y.epoch) + y.slot <==> Earlier(x, y)
    ensures SlotsBefore(f, x.epoch) + x.slot == SlotsBefore(f, y.epoch) + y.slot <==> x == y
  {
    SlotsBeforeIsBefore(f, x.epoch);
    SlotsBeforeIsBefore(f, y.epoch);
    AbsoluteSlotIsMonotone(Slots(f), x, y);
  }

  /** And every positive number belongs to a slot. */
  lemma {:induction false} EveryNumberHasASlot(f: seq<Fork>, n: nat)
    requires GoodForks(f) && n >= 1
    ensures Positive(Slots(f))
    ensures Proper(Slots(f), SlotOf(Slots(f), n))
    ensures SlotsBefore(f, SlotOf(Slots(f), n).epoch) + SlotOf(Slots(f), n).slot == n
  {
    assert Positive(Slots(f));
    SlotsBeforeIsBefore(f, SlotOf(Slots(f), n).epoch);
  }
}
