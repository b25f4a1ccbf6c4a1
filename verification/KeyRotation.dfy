/**
 Rotation of the certificate signers' keys: every signer has a signing key and a master key, a new key
 must be authorised by both old ones and by itself, and it comes into force with the next withdrawal
 epoch.
 */
module KeyRotation {

  datatype Option<T> = None | Some(value: T)

  datatype Kind = Signing | Master

  type Key = nat

  /** What a rotation signs: the new key, bound to the kind of key and to one withdrawal epoch. */
  datatype Message = Message(kind: Kind, newKey: Key, epoch: nat)

  /** A signature is valid for a key and a message exactly when it was made with that key over that
      message. */
  datatype Signature = Signature(signer: Key, over: Message)

  predicate IsValid(s: Signature, key: Key, m: Message) {
    s == Signature(key, m)
  }

  /** A rotation request as it arrives; the index is not yet checked. */
  datatype Request = Request(kind: Kind, index: int, newKey: Key, signing: Signature, master: Signature,
      self: Signature)

  /** An accepted rotation. */
  datatype Entry = Entry(epoch: nat, kind: Kind, index: nat, newKey: Key, signing: Signature, master: Signature,
      self: Signature)

  /** The keys the sidechain was created with. */
  datatype Genesis = Genesis(signers: seq<Key>, masters: seq<Key>)

  function GenesisKey(g: Genesis, kind: Kind, index: nat): Key
    requires index < |g.signers| == |g.masters|
  {
    if kind == Signing then g.signers[index] else g.masters[index]
  }

  // ---------------------------------------------------------------- keys as the log of rotations tells them

  predicate InSlot(x: Entry, kind: Kind, index: nat) {
    x.kind == kind && x.index == index
  }

  /** The key in force when epoch `e` starts: the latest rotation of an earlier epoch, or the genesis
      key. */
  function KeyAt(g: Genesis, log: seq<Entry>, kind: Kind, index: nat, e: nat): Key
    requires index < |g.signers| == |g.masters|
  {
    if log == [] then GenesisKey(g, kind, index)
    else
      var x := log[|log| - 1];
      if InSlot(x, kind, index) && x.epoch < e then x.newKey
      else KeyAt(g, log[..|log| - 1], kind, index, e)
  }

  /** The last rotation of a slot inside one epoch. */
  function LastIn(log: seq<Entry>, kind: Kind, index: nat, e: nat): Option<Key> {
    if log == [] then None
    else
      var x := log[|log| - 1];
      if InSlot(x, kind, index) && x.epoch == e then Some(x.newKey)
      else LastIn(log[..|log| - 1], kind, index, e)
  }

  predicate EpochsGrow(log: seq<Entry>) {
    forall i, k :: 0 <= i < k < |log| ==> log[i].epoch <= log[k].epoch
  }

  /** The signing key, the master key and the new key all signed the message for this very epoch. */
  predicate Authorised(x: Entry, signing: Key, master: Key) {
    var m := Message(x.kind, x.newKey, x.epoch);
    IsValid(x.signing, signing, m) && IsValid(x.master, master, m) && IsValid(x.self, x.newKey, m)
  }

  /** Every rotation was authorised, when it was accepted, by the keys then in force. */
  predicate GoodLog(g: Genesis, log: seq<Entry>) {
    && |g.signers| == |g.masters|
    && EpochsGrow(log)
    && (forall i :: 0 <= i < |log| ==> log[i].index < |g.signers|)
    && (forall i {:trigger log[..i]} :: 0 <= i < |log| ==>
          Authorised(log[i], KeyAt(g, log[..i], Signing, log[i].index, log[i].epoch),
                     KeyAt(g, log[..i], Master, log[i].index, log[i].epoch)))
  }

  /** Rotations of epoch e or later do not touch the keys in force when epoch e starts, so the keys
      that authorise stay fixed within an epoch. */
  lemma {:induction false} KeysFixedWithinEpoch(g: Genesis, log: seq<Entry>, n: nat, kind: Kind, index: nat, e: nat)
    requires index < |g.signers| == |g.masters| && n <= |log|
    requires forall i :: n <= i < |log| ==> log[i].epoch >= e
    ensures KeyAt(g, log, kind, index, e) == KeyAt(g, log[..n], kind, index, e)
  {
    if n < |log| {
      var m := |log| - 1;
      KeysFixedWithinEpoch(g, log[..m], n, kind, index, e);
      assert log[..m][..n] == log[..n];
    } else {
      assert log[..n] == log;
    }
  }

  /** The keys after an epoch are the keys before it overlaid with the last rotation of each slot. */
  lemma {:induction false} EpochOverlay(g: Genesis, log: seq<Entry>, kind: Kind, index: nat, e: nat)
    requires index < |g.signers| == |g.masters| && EpochsGrow(log)
    ensures KeyAt(g, log, kind, index, e + 1)
         == match LastIn(log, kind, index, e)
            case Some(k) => k
            case None => KeyAt(g, log, kind, index, e)
  {
    if log != [] {
      var n := |log| - 1;
      var x := log[n];
      if x.epoch > e || !InSlot(x, kind, index) {
        EpochOverlay(g, log[..n], kind, index, e);
      } else if x.epoch < e {
        OlderEpochsOnly(log, kind, index, e);
      }
    }
  }

  lemma {:induction false} OlderEpochsOnly(log: seq<Entry>, kind: Kind, index: nat, e: nat)
    requires forall i :: 0 <= i < |log| ==> log[i].epoch < e
    ensures LastIn(log, kind, index, e) == None
  {
    if log != [] {
      OlderEpochsOnly(log[..|log| - 1], kind, index, e);
    }
  }

  // ---------------------------------------------------------------- order of different slots

  /** The rotations of one slot, in order. */
  function OfSlot(log: seq<Entry>, kind: Kind, index: nat): seq<Entry> {
    if log == [] then []
    else
      var rest := OfSlot(log[..|log| - 1], kind, index);
      if InSlot(log[|log| - 1], kind, index) then rest + [log[|log| - 1]] else rest
  }

  /** A slot's key depends on that slot's rotations alone. */
  lemma {:induction false} OnlyOwnSlotMatters(g: Genesis, log: seq<Entry>, kind: Kind, index: nat, e: nat)
    requires index < |g.signers| == |g.masters|
    ensures KeyAt(g, log, kind, index, e) == KeyAt(g, OfSlot(log, kind, index), kind, index, e)
  {
    if log != [] {
      var n := |log| - 1;
      OnlyOwnSlotMatters(g, log[..n], kind, index, e);
      if InSlot(log[n], kind, index) {
        var mine := OfSlot(log, kind, index);
        assert mine[..|mine| - 1] == OfSlot(log[..n], kind, index);
      }
    }
  }

  /** Two logs that rotate each slot the same way give the same keys, however slots interleave. */
  lemma {:induction false} OrderOfSlotsIsIrrelevant(g: Genesis, a: seq<Entry>, b: seq<Entry>, kind: Kind, index: nat,
      e: nat)
    requires index < |g.signers| == |g.masters|
    requires OfSlot(a, kind, index) == OfSlot(b, kind, index)
    ensures KeyAt(g, a, kind, index, e) == KeyAt(g, b, kind, index, e)
  {
    OnlyOwnSlotMatters(g, a, kind, index, e);
    OnlyOwnSlotMatters(g, b, kind, index, e);
  }

  // ---------------------------------------------------------------- every key goes back to the genesis keys

  /** A key in force is the genesis key, never rotated, or the product of a rotation signed by itself and by the keys
      in force when the epoch of that rotation started, which are certified in turn. */
  predicate Certified(g: Genesis, log: seq<Entry>, kind: Kind, index: nat, e: nat)
    requires index < |g.signers| == |g.masters|
    decreases e
  {
    || (NeverRotated(log, kind, index, e) && KeyAt(g, log, kind, index, e) == GenesisKey(g, kind, index))
    || exists i :: 0 <= i < |log| && CertifiedBy(g, log, kind, index, e, i)
  }

  /** No rotation of the slot came into force before epoch `e`. */
  predicate NeverRotated(log: seq<Entry>, kind: Kind, index: nat, e: nat) {
    forall i :: 0 <= i < |log| && InSlot(log[i], kind, index) ==> log[i].epoch >= e
  }

  predicate CertifiedBy(g: Genesis, log: seq<Entry>, kind: Kind, index: nat, e: nat, i: nat)
    requires index < |g.signers| == |g.masters| && i < |log|
    decreases e, 0
  {
    var x := log[i];
    && InSlot(x, kind, index) && x.epoch < e && x.newKey == KeyAt(g, log, kind, index, e)
    && Authorised(x, KeyAt(g, log, Signing, index, x.epoch), KeyAt(g, log, Master, index, x.epoch))
    && Certified(g, log, Signing, index, x.epoch)
    && Certified(g, log, Master, index, x.epoch)
  }

  /** The last rotation of the slot from an epoch before `e`. */
  predicate IsLatest(log: seq<Entry>, kind: Kind, index: nat, e: nat, i: nat) {
    && i < |log| && InSlot(log[i], kind, index) && log[i].epoch < e
    && forall k :: i < k < |log| && InSlot(log[k], kind, index) ==> log[k].epoch >= e
  }

  /** Where the key in force comes from. */
  function Source(g: Genesis, log: seq<Entry>, kind: Kind, index: nat, e: nat): (i: Option<nat>)
    requires index < |g.signers| == |g.masters|
    ensures i.Some? ==>
      IsLatest(log, kind, index, e, i.value) && log[i.value].newKey == KeyAt(g, log, kind, index, e)
    ensures i.None? ==> NeverRotated(log, kind, index, e) && KeyAt(g, log, kind, index, e) == GenesisKey(g, kind, index)
  {
    if log == [] then None
    else
      var n := |log| - 1;
      if InSlot(log[n], kind, index) && log[n].epoch < e then Some(n)
      else Source(g, log[..n], kind, index, e)
  }

  /** The key in force is that of the slot's latest rotation, or without one the key the slot was created
      with. */
  lemma {:induction false} KeyInForce(g: Genesis, log: seq<Entry>, kind: Kind, index: nat, e: nat)
    requires index < |g.signers| == |g.masters|
    ensures forall i: nat :: IsLatest(log, kind, index, e, i) ==> KeyAt(g, log, kind, index, e) == log[i].newKey
    ensures (exists i: nat :: IsLatest(log, kind, index, e, i)) <==> !NeverRotated(log, kind, index, e)
    ensures NeverRotated(log, kind, index, e) ==>
      KeyAt(g, log, kind, index, e) == (match kind case Signing => g.signers case Master => g.masters)[index]
  {
    var source := Source(g, log, kind, index, e);
    assert source.Some? ==> IsLatest(log, kind, index, e, source.value);
  }

  /** An accepted rotation was signed by the keys in force at the start of its epoch, as the whole log
      gives them. */
  lemma {:induction false} AuthorisedByEpochKeys(g: Genesis, log: seq<Entry>, i: nat)
    requires GoodLog(g, log) && i < |log|
    ensures var x := log[i];
      Authorised(x, KeyAt(g, log, Signing, x.index, x.epoch), KeyAt(g, log, Master, x.index, x.epoch))
  {
    var x := log[i];
    KeysFixedWithinEpoch(g, log, i, Signing, x.index, x.epoch);
    KeysFixedWithinEpoch(g, log, i, Master, x.index, x.epoch);
  }

  lemma {:induction false} EveryKeyIsCertified(g: Genesis, log: seq<Entry>, kind: Kind, index: nat, e: nat)
    requires GoodLog(g, log) && index < |g.signers|
    ensures Certified(g, log, kind, index, e)
    decreases e
  {
    var source := Source(g, log, kind, index, e);
    if source.Some? {
      var i := source.value;
      AuthorisedByEpochKeys(g, log, i);
      EveryKeyIsCertified(g, log, Signing, index, log[i].epoch);
      EveryKeyIsCertified(g, log, Master, index, log[i].epoch);
      assert CertifiedBy(g, log, kind, index, e, i);
    }
  }

  // ---------------------------------------------------------------- the contract's storage

  /** Epochs with a rotation of the slot, newest first and each once. */
  function HistoryOf(log: seq<Entry>, kind: Kind, index: nat): seq<nat> {
    if log == [] then []
    else
      var x := log[|log| - 1];
      var rest := HistoryOf(log[..|log| - 1], kind, index);
      if !InSlot(x, kind, index) || (rest != [] && rest[0] == x.epoch) then rest else [x.epoch] + rest
  }

  /** First entry of the history before epoch `e`. */
  function FindBefore(history: seq<nat>, e: nat): (r: Option<nat>)
    ensures r.Some? ==> r.value < e && r.value in history
  {
    if history == [] then None else if history[0] < e then Some(history[0]) else FindBefore(history[1..], e)
  }

  /** The key the contract finds for epoch `e` in its storage. */
  function Stored(g: Genesis, log: seq<Entry>, kind: Kind, index: nat, e: nat): Key
    requires index < |g.signers| == |g.masters|
  {
    match FindBefore(HistoryOf(log, kind, index), e)
    case None => GenesisKey(g, kind, index)
    case Some(h) =>
      match LastIn(log, kind, index, h)
      case None => GenesisKey(g, kind, index)
      case Some(k) => k
  }

  /** The newest history entry is not later than the last rotation. */
  lemma {:induction false} HistoryBounded(log: seq<Entry>, kind: Kind, index: nat)
    requires EpochsGrow(log)
    ensures forall h :: h in HistoryOf(log, kind, index) ==> log != [] && h <= log[|log| - 1].epoch
  {
    if log != [] {
      HistoryBounded(log[..|log| - 1], kind, index);
    }
  }

  /** Searching the history and then the epoch's entry finds the key in force. */
  lemma {:induction false} StoredIsKeyAt(g: Genesis, log: seq<Entry>, kind: Kind, index: nat, e: nat)
    requires index < |g.signers| == |g.masters| && EpochsGrow(log)
    ensures Stored(g, log, kind, index, e) == KeyAt(g, log, kind, index, e)
  {
    if log != [] {
      var n := |log| - 1;
      var x, rest := log[n], HistoryOf(log[..n], kind, index);
      HistoryBounded(log[..n], kind, index);
      StoredIsKeyAt(g, log[..n], kind, index, e);
      if InSlot(x, kind, index) {
        if x.epoch >= e {
          SkipNewer(log, rest, kind, index, e);
        } else {
          assert HistoryOf(log, kind, index)[0] == x.epoch;
        }
      }
    }
  }

  lemma {:induction false} SkipNewer(log: seq<Entry>, rest: seq<nat>, kind: Kind, index: nat, e: nat)
    requires log != [] && InSlot(log[|log| - 1], kind, index) && log[|log| - 1].epoch >= e
    requires rest == HistoryOf(log[..|log| - 1], kind, index)
    ensures FindBefore(HistoryOf(log, kind, index), e) == FindBefore(rest, e)
  {
    assert ([log[|log| - 1].epoch] + rest)[1..] == rest;
  }

  // ---------------------------------------------------------------- runs

  /** The current withdrawal epoch and the rotations accepted so far. */
  datatype Ledger = Ledger(epoch: nat, log: seq<Entry>)

  datatype Step = Submit(request: Request) | NextEpoch

  function ToEntry(r: Request, epoch: nat): Entry
    requires r.index >= 0
  {
    Entry(epoch, r.kind, r.index, r.newKey, r.signing, r.master, r.self)
  }

  predicate Accepts(g: Genesis, l: Ledger, r: Request)
    requires |g.signers| == |g.masters|
  {
    && 0 <= r.index < |g.signers|
    && Authorised(ToEntry(r, l.epoch), KeyAt(g, l.log, Signing, r.index, l.epoch),
      KeyAt(g, l.log, Master, r.index, l.epoch))
  }

  function Apply(g: Genesis, l: Ledger, step: Step): Ledger
    requires |g.signers| == |g.masters|
  {
    match step
    case NextEpoch => l.(epoch := l.epoch + 1)
    case Submit(r) => if Accepts(g, l, r) then l.(log := l.log + [ToEntry(r, l.epoch)]) else l
  }

  predicate GoodLedger(g: Genesis, l: Ledger) {
    GoodLog(g, l.log) && forall i :: 0 <= i < |l.log| ==> l.log[i].epoch <= l.epoch
  }

  lemma {:induction false} StepKeepsGoodLedger(g: Genesis, l: Ledger, step: Step)
    requires GoodLedger(g, l)
    ensures GoodLedger(g, Apply(g, l, step))
  {
    if step.Submit? && Accepts(g, l, step.request) {
      var log := l.log + [ToEntry(step.request, l.epoch)];
      forall i | 0 <= i < |log|
        ensures Authorised(log[i], KeyAt(g, log[..i], Signing, log[i].index, log[i].epoch),
                           KeyAt(g, log[..i], Master, log[i].index, log[i].epoch))
      {
        assert log[..i] == l.log[..i];
        if i == |l.log| {
          assert log[..i] == l.log;
        }
      }
    }
  }

  function Run(g: Genesis, steps: seq<Step>): Ledger
    requires |g.signers| == |g.masters|
  {
    if steps == [] then Ledger(0, []) else Apply(g, Run(g, steps[..|steps| - 1]), steps[|steps| - 1])
  }

  lemma {:induction false} RunIsGood(g: Genesis, steps: seq<Step>)
    requires |g.signers| == |g.masters|
    ensures GoodLedger(g, Run(g, steps))
  {
    if steps != [] {
      RunIsGood(g, steps[..|steps| - 1]);
      StepKeepsGoodLedger(g, Run(g, steps[..|steps| - 1]), steps[|steps| - 1]);
    }
  }

  /** In every run, each key in force in any epoch goes back to the genesis key. */
  lemma {:induction false} EveryRunIsCertified(g: Genesis, steps: seq<Step>, kind: Kind, index: nat, e: nat)
    requires index < |g.signers| == |g.masters|
    ensures Certified(g, Run(g, steps).log, kind, index, e)
  {
    RunIsGood(g, steps);
    EveryKeyIsCertified(g, Run(g, steps).log, kind, index, e);
  }

  function EpochsPassed(steps: seq<Step>): nat {
    if steps == [] then 0 else EpochsPassed(steps[..|steps| - 1]) + if steps[|steps| - 1].NextEpoch? then 1 else 0
  }

  /** In every run the epoch is the number of epochs passed, and accepted rotations stay accepted. */
  lemma {:induction false} EpochIsCounted(g: Genesis, steps: seq<Step>, more: seq<Step>)
    requires |g.signers| == |g.masters|
    ensures Run(g, steps).epoch == EpochsPassed(steps)
    ensures Run(g, steps).log <= Run(g, steps + more).log
  {
    if more != [] {
      EpochIsCounted(g, steps, more[..|more| - 1]);
      RunSnoc(g, steps + more[..|more| - 1], more[|more| - 1]);
      assert steps + more == (steps + more[..|more| - 1]) + [more[|more| - 1]];
    } else {
      assert steps + more == steps;
      if steps != [] {
        EpochIsCounted(g, steps[..|steps| - 1], []);
      }
    }
  }

  /** The request names a slot and bears the signatures of the slot's signing key, of its master key and of the
      new key over the new key, its kind and the current epoch. */
  predicate ProperlySigned(g: Genesis, l: Ledger, r: Request)
    requires |g.signers| == |g.masters|
  {
    && 0 <= r.index < |g.signers|
    && r.signing == Signature(KeyAt(g, l.log, Signing, r.index, l.epoch), Message(r.kind, r.newKey, l.epoch))
    && r.master == Signature(KeyAt(g, l.log, Master, r.index, l.epoch), Message(r.kind, r.newKey, l.epoch))
    && r.self == Signature(r.newKey, Message(r.kind, r.newKey, l.epoch))
  }

  /** A submitted request takes effect if and only if it is properly signed: then its key is the slot's key of
      the next epoch, whatever its kind, and all other keys stay; otherwise nothing changes. */
  lemma {:induction false} SubmitTakesEffectIff(g: Genesis, l: Ledger, r: Request)
    requires |g.signers| == |g.masters|
    ensures var t := Apply(g, l, Submit(r));
      && t.epoch == l.epoch
      && (!ProperlySigned(g, l, r) ==> t == l)
      && (ProperlySigned(g, l, r) ==>
            && KeyAt(g, t.log, r.kind, r.index, l.epoch + 1) == r.newKey
            && forall kind, index: nat, e: nat ::
                 index < |g.signers| && !(kind == r.kind && index == r.index && e > l.epoch) ==>
                   KeyAt(g, t.log, kind, index, e) == KeyAt(g, l.log, kind, index, e))
  {
    assert Accepts(g, l, r) <==> ProperlySigned(g, l, r);
    if ProperlySigned(g, l, r) {
      var log := l.log + [ToEntry(r, l.epoch)];
      assert log[..|l.log|] == l.log;
    }
  }

  /** So a key can be rotated in every state of every run, by those who hold the keys. */
  lemma {:induction false} EveryKeyCanBeRotated(g: Genesis, steps: seq<Step>, kind: Kind, index: nat, newKey: Key)
    requires index < |g.signers| == |g.masters|
    ensures var l := Run(g, steps);
      var m := Message(kind, newKey, l.epoch);
      var r := Request(kind, index, newKey, Signature(KeyAt(g, l.log, Signing, index, l.epoch), m),
                       Signature(KeyAt(g, l.log, Master, index, l.epoch), m), Signature(newKey, m));
      KeyAt(g, Run(g, steps + [Submit(r)] + [NextEpoch]).log, kind, index, l.epoch + 1) == newKey
  {
    var l := Run(g, steps);
    var m := Message(kind, newKey, l.epoch);
    var r := Request(kind, index, newKey, Signature(KeyAt(g, l.log, Signing, index, l.epoch), m),
                     Signature(KeyAt(g, l.log, Master, index, l.epoch), m), Signature(newKey, m));
    SubmitTakesEffectIff(g, l, r);
    RunSnoc(g, steps, Submit(r));
    RunSnoc(g, steps + [Submit(r)], NextEpoch);
  }

  lemma {:induction false} RunSnoc(g: Genesis, steps: seq<Step>, step: Step)
    requires |g.signers| == |g.masters|
    ensures Run(g, steps + [step]) == Apply(g, Run(g, steps), step)
  {
    assert (steps + [step])[..|steps|] == steps;
  }

  /** A rotation request can only ever be accepted in the one epoch it was made for. */
  lemma {:induction false} AcceptedInOneEpochOnly(g: Genesis, a: Ledger, b: Ledger, r: Request)
    requires |g.signers| == |g.masters| && Accepts(g, a, r) && Accepts(g, b, r)
    ensures a.epoch == b.epoch == r.self.over.epoch
  {
  }

  /** What is done after an epoch cannot change the keys that were in force when it started or when it
      ended. */
  lemma {:induction false} PastKeysAreFinal(g: Genesis, l: Ledger, step: Step, kind: Kind, index: nat, e: nat)
    requires GoodLedger(g, l) && index < |g.signers| && e <= l.epoch
    ensures KeyAt(g, Apply(g, l, step).log, kind, index, e) == KeyAt(g, l.log, kind, index, e)
  {
    var after := Apply(g, l, step).log;
    KeysFixedWithinEpoch(g, after, |l.log|, kind, index, e);
    assert after[..|l.log|] == l.log;
  }

  // ---------------------------------------------------------------- reordering one epoch's requests

  /** Submit a row of requests in the current epoch. */
  function SubmitAll(g: Genesis, l: Ledger, rs: seq<Request>): Ledger
    requires |g.signers| == |g.masters|
  {
    if rs == [] then l else Apply(g, SubmitAll(g, l, rs[..|rs| - 1]), Submit(rs[|rs| - 1]))
  }

  /** The requests for one slot, in order. */
  function RequestsOf(rs: seq<Request>, kind: Kind, index: nat): seq<Request> {
    if rs == [] then []
    else
      var rest, r := RequestsOf(rs[..|rs| - 1], kind, index), rs[|rs| - 1];
      if r.kind == kind && r.index == index then rest + [r] else rest
  }

  /** What acceptance by the keys of `l` makes of a slot's requests. */
  function AcceptedOf(g: Genesis, l: Ledger, rs: seq<Request>): seq<Entry>
    requires |g.signers| == |g.masters|
  {
    if rs == [] then []
    else
      var rest, r := AcceptedOf(g, l, rs[..|rs| - 1]), rs[|rs| - 1];
      if Accepts(g, l, r) then rest + [ToEntry(r, l.epoch)] else rest
  }

  /** Requests of the same epoch do not change what is accepted. */
  lemma {:induction false} SubmittingKeepsAcceptance(g: Genesis, l: Ledger, rs: seq<Request>, r: Request)
    requires GoodLedger(g, l)
    ensures SubmitAll(g, l, rs).epoch == l.epoch && GoodLedger(g, SubmitAll(g, l, rs))
    ensures Accepts(g, SubmitAll(g, l, rs), r) <==> Accepts(g, l, r)
  {
    if rs != [] {
      var before, last := SubmitAll(g, l, rs[..|rs| - 1]), Submit(rs[|rs| - 1]);
      SubmittingKeepsAcceptance(g, l, rs[..|rs| - 1], r);
      StepKeepsGoodLedger(g, before, last);
      if 0 <= r.index < |g.signers| {
        PastKeysAreFinal(g, before, last, Signing, r.index, l.epoch);
        PastKeysAreFinal(g, before, last, Master, r.index, l.epoch);
      }
    }
  }

  /** Each slot's part of the log is extended by the accepted ones of its own requests, in order. */
  lemma {:induction false} SubmitAllSlot(g: Genesis, l: Ledger, rs: seq<Request>, kind: Kind, index: nat)
    requires GoodLedger(g, l)
    ensures OfSlot(SubmitAll(g, l, rs).log, kind, index)
         == OfSlot(l.log, kind, index) + AcceptedOf(g, l, RequestsOf(rs, kind, index))
  {
    if rs != [] {
      var n := |rs| - 1;
      var before, r, mine := SubmitAll(g, l, rs[..n]), rs[n], RequestsOf(rs[..n], kind, index);
      SubmitAllSlot(g, l, rs[..n], kind, index);
      SubmittingKeepsAcceptance(g, l, rs[..n], r);
      SlotSnoc(g, l, before, r, mine, kind, index);
    }
  }

  lemma {:induction false} SlotSnoc(
      g: Genesis, l: Ledger, before: Ledger, r: Request, mine: seq<Request>, kind: Kind, index: nat)
    requires |g.signers| == |g.masters| && before.epoch == l.epoch && (Accepts(g, before, r) <==> Accepts(g, l, r))
    requires OfSlot(before.log, kind, index) == OfSlot(l.log, kind, index) + AcceptedOf(g, l, mine)
    ensures OfSlot(Apply(g, before, Submit(r)).log, kind, index)
         == OfSlot(l.log, kind, index)
          + AcceptedOf(g, l, if r.kind == kind && r.index == index then mine + [r] else mine)
  {
    if Accepts(g, l, r) {
      OfSlotSnoc(before.log, ToEntry(r, l.epoch), kind, index);
    }
    AcceptedSnoc(g, l, mine, r);
  }

  lemma {:induction false} OfSlotSnoc(log: seq<Entry>, x: Entry, kind: Kind, index: nat)
    ensures OfSlot(log + [x], kind, index)
         == OfSlot(log, kind, index) + if InSlot(x, kind, index) then [x] else []
  {
    assert (log + [x])[..|log|] == log;
  }

  lemma {:induction false} AcceptedSnoc(g: Genesis, l: Ledger, rs: seq<Request>, r: Request)
    requires |g.signers| == |g.masters|
    ensures AcceptedOf(g, l, rs + [r])
         == AcceptedOf(g, l, rs) + if Accepts(g, l, r) then [ToEntry(r, l.epoch)] else []
  {
    assert (rs + [r])[..|rs|] == rs;
  }

  /** Two orders of one epoch's requests that keep the order within every slot accept the same requests
      and give the same keys, now and in every later epoch. */
  lemma {:induction false} ReorderingIsIrrelevant(g: Genesis, l: Ledger, a: seq<Request>, b: seq<Request>,
                                                  kind: Kind, index: nat, e: nat)
    requires GoodLedger(g, l) && index < |g.signers|
    requires RequestsOf(a, kind, index) == RequestsOf(b, kind, index)
    ensures OfSlot(SubmitAll(g, l, a).log, kind, index) == OfSlot(SubmitAll(g, l, b).log, kind, index)
    ensures KeyAt(g, SubmitAll(g, l, a).log, kind, index, e) == KeyAt(g, SubmitAll(g, l, b).log, kind, index, e)
  {
    SubmitAllSlot(g, l, a, kind, index);
    SubmitAllSlot(g, l, b, kind, index);
    OrderOfSlotsIsIrrelevant(g, SubmitAll(g, l, a).log, SubmitAll(g, l, b).log, kind, index, e);
  }

  // ---------------------------------------------------------------- the contract

  function Lookup<K, V>(m: map<K, V>, k: K): Option<V> {
    if k in m then Some(m[k]) else None
  }

  function EpochsIn(history: map<(Kind, nat), seq<nat>>, kind: Kind, index: nat): seq<nat> {
    if (kind, index) in history then history[(kind, index)] else []
  }

  ghost predicate HistoryStored(history: map<(Kind, nat), seq<nat>>, log: seq<Entry>) {
    forall kind, index :: EpochsIn(history, kind, index) == HistoryOf(log, kind, index)
  }

  ghost predicate KeysStored(keys: map<(Kind, nat, nat), Key>, log: seq<Entry>) {
    forall kind, e, index :: Lookup(keys, (kind, e, index)) == LastIn(log, kind, index, e)
  }

  lemma {:induction false} StoreKey(keys: map<(Kind, nat, nat), Key>, log: seq<Entry>, x: Entry)
    requires KeysStored(keys, log)
    ensures KeysStored(keys[(x.kind, x.epoch, x.index) := x.newKey], log + [x])
  {
    var keys' := keys[(x.kind, x.epoch, x.index) := x.newKey];
    assert (log + [x])[..|log|] == log;
    forall kind, e, index ensures Lookup(keys', (kind, e, index)) == LastIn(log + [x], kind, index, e) {
      assert Lookup(keys, (kind, e, index)) == LastIn(log, kind, index, e);
    }
  }

  lemma {:induction false} StoreHistory(history: map<(Kind, nat), seq<nat>>, log: seq<Entry>, x: Entry)
    requires HistoryStored(history, log)
    ensures var epochs := EpochsIn(history, x.kind, x.index);
      HistoryStored(
        if epochs == [] || epochs[0] != x.epoch then history[(x.kind, x.index) := [x.epoch] + epochs] else history,
        log + [x])
  {
    assert (log + [x])[..|log|] == log;
    forall kind, index ensures
      var epochs := EpochsIn(history, x.kind, x.index);
      EpochsIn(
        if epochs == [] || epochs[0] != x.epoch then history[(x.kind, x.index) := [x.epoch] + epochs] else history,
        kind, index)
      == HistoryOf(log + [x], kind, index)
    {
      assert EpochsIn(history, kind, index) == HistoryOf(log, kind, index);
    }
  }

  /** The rotation contract with its storage: new keys by kind, epoch and index, and per slot the list
      of epochs with a rotation.  `log` is what the storage stands for. */
  class Contract {
    const genesis: Genesis
    var epoch: nat
    var keys: map<(Kind, nat, nat), Key>
    var history: map<(Kind, nat), seq<nat>>
    ghost var log: seq<Entry>

    ghost function Now(): Ledger
      reads this
    {
      Ledger(epoch, log)
    }

    ghost predicate Valid()
      reads this
    {
      GoodLedger(genesis, Now()) && KeysStored(keys, log) && HistoryStored(history, log)
    }

    constructor (g: Genesis)
      requires |g.signers| == |g.masters|
      ensures genesis == g && Now() == Ledger(0, []) && Valid()
    {
      genesis, epoch, keys, history, log := g, 0, map[], map[], [];
    }

    /** The search through the slot's history. */
    method LatestKey(kind: Kind, index: nat, requested: nat) returns (key: Key)
      requires Valid() && index < |genesis.signers|
      ensures key == KeyAt(genesis, log, kind, index, requested)
    {
      StoredIsKeyAt(genesis, log, kind, index, requested);
      var epochs := EpochsIn(history, kind, index);
      var i := 0;
      while i < |epochs| && epochs[i] >= requested
        invariant i <= |epochs|
        invariant FindBefore(epochs[i..], requested) == FindBefore(epochs, requested)
      {
        assert epochs[i..][1..] == epochs[i + 1..];
        i := i + 1;
      }
      if i == |epochs| {
        return GenesisKey(genesis, kind, index);
      }
      assert Lookup(keys, (kind, epochs[i], index)) == LastIn(log, kind, index, epochs[i]);
      if (kind, epochs[i], index) in keys {
        return keys[(kind, epochs[i], index)];
      }
      return GenesisKey(genesis, kind, index);
    }

    /** The keys that certify an epoch: those in force when the next one starts. */
    method CertifiersKeys(e: nat) returns (signing: seq<Key>, master: seq<Key>)
      requires Valid()
      ensures |signing| == |master| == |genesis.signers|
      ensures forall i :: 0 <= i < |signing| ==> signing[i] == KeyAt(genesis, log, Signing, i, e + 1)
      ensures forall i :: 0 <= i < |master| ==> master[i] == KeyAt(genesis, log, Master, i, e + 1)
    {
      signing, master := [], [];
      for i := 0 to |genesis.signers|
        invariant |signing| == |master| == i
        invariant forall k :: 0 <= k < i ==> signing[k] == KeyAt(genesis, log, Signing, k, e + 1)
        invariant forall k :: 0 <= k < i ==> master[k] == KeyAt(genesis, log, Master, k, e + 1)
      {
        var s := LatestKey(Signing, i, e + 1);
        var m := LatestKey(Master, i, e + 1);
        signing, master := signing + [s], master + [m];
      }
    }

    method AdvanceEpoch()
      requires Valid()
      modifies this
      ensures Valid() && Now() == Apply(genesis, old(Now()), NextEpoch)
    {
      StepKeepsGoodLedger(genesis, Now(), NextEpoch);
      epoch := epoch + 1;
    }

    /** Check the index and the three signatures against the keys in force, then store the new key
        and, once per epoch, the epoch in the slot's history. */
    method SubmitRotation(r: Request) returns (ok: bool)
      requires Valid()
      modifies this
      ensures Valid()
      ensures ok == ProperlySigned(genesis, old(Now()), r)
      ensures Now() == Apply(genesis, old(Now()), Submit(r))
      ensures ok ==> KeyAt(genesis, log, r.kind, r.index, epoch + 1) == r.newKey
      ensures !ok ==> Now() == old(Now())
    {
      SubmitTakesEffectIff(genesis, Now(), r);
      if r.index < 0 || r.index >= |genesis.signers| {
        return false;
      }
      var message := Message(r.kind, r.newKey, epoch);
      var signing := LatestKey(Signing, r.index, epoch);
      var master := LatestKey(Master, r.index, epoch);
      if !IsValid(r.signing, signing, message) || !IsValid(r.master, master, message)
        || !IsValid(r.self, r.newKey, message) {
        return false;
      }
      StepKeepsGoodLedger(genesis, Now(), Submit(r));
      StoreKey(keys, log, ToEntry(r, epoch));
      StoreHistory(history, log, ToEntry(r, epoch));
      keys := keys[(r.kind, epoch, r.index) := r.newKey];
      var epochs := EpochsIn(history, r.kind, r.index);
      if epochs == [] || epochs[0] != epoch {
        history := history[(r.kind, r.index) := [epoch] + epochs];
      }
      log := log + [ToEntry(r, epoch)];
      return true;
    }
  }
}
