/**
 Ceasing: every withdrawal epoch needs a certificate on the mainchain before the submission window of
 the next epoch closes.
 */
module Ceasing {
  import opened Sidechain

  /** Length of the certificate submission window. */
  function Window(len: EpochLength): (w: nat)
    ensures 2 <= w <= len
  {
    if len / 5 > 2 then len / 5 else 2
  }

  /** A fifth of the epoch rounded down, but at least two blocks. */
  lemma {:induction false} WindowIsAFifth(len: EpochLength)
    ensures len >= 10 ==> 5 * Window(len) <= len < 5 * (Window(len) + 1)
    ensures len < 10 ==> Window(len) == 2
  {
  }

  /** Mainchain blocks before an epoch; block 0 is the one that created the sidechain. */
  function EpochStart(e: nat, len: EpochLength): nat {
    if e == 0 then 0 else EpochStart(e - 1, len) + len
  }

  lemma {:induction false} EpochStartGrows(a: nat, b: nat, len: EpochLength)
    requires a < b
    ensures EpochStart(a, len) + len <= EpochStart(b, len)
  {
    if a + 1 < b {
      EpochStartGrows(a, b - 1, len);
    }
  }

  // ---------------------------------------------------------------- the mainchain's view
  // `mc[k]` tells whether mainchain block k carries a certificate for the epoch before its own.

  /** The mainchain accepts certificates inside submission windows only. */
  ghost predicate WellTimed(mc: seq<bool>, len: EpochLength) {
    forall e: nat, k :: EpochStart(e, len) <= k < EpochStart(e + 1, len) && 0 <= k < |mc| && mc[k] ==>
      e >= 1 && k < EpochStart(e, len) + Window(len)
  }

  /** Among the first `c` blocks there is a certificate in epoch e. */
  ghost predicate Certified(mc: seq<bool>, len: EpochLength, e: nat, c: nat) {
    exists k :: EpochStart(e, len) <= k < EpochStart(e + 1, len) && 0 <= k < c && k < |mc| && mc[k]
  }

  /** After `c` blocks some submission window has closed without a certificate. */
  ghost predicate Dead(mc: seq<bool>, len: EpochLength, c: nat) {
    exists e: nat :: Missed(mc, len, e, c)
  }

  ghost predicate Missed(mc: seq<bool>, len: EpochLength, e: nat, c: nat) {
    e >= 1 && EpochStart(e, len) + Window(len) <= c && !Certified(mc, len, e, EpochStart(e, len) + Window(len))
  }

  // ---------------------------------------------------------------- the sidechain's view

  /** Where the chain stands, the mainchain blocks it has referenced, the epochs it has a certificate
      for, and whether the sidechain has ceased. */
  datatype State = State(info: EpochInfo, seen: nat, certs: set<int>, ceased: bool)

  const INITIAL := State(EpochInfo(0, 0), 0, {}, false)

  /** The block's references reach the end of the submission window. */
  predicate ReachesWindowEnd(next: EpochInfo, parent: EpochInfo, len: EpochLength) {
    && next.epoch > 0
    && (parent.lastIndex < Window(len) || parent.lastIndex == len)
    && next.lastIndex >= Window(len)
  }

  predicate HasCertificate(mc: seq<bool>, lo: nat, hi: nat) {
    exists k :: lo <= k < hi && k < |mc| && mc[k]
  }

  /** Apply a block with `refs` references; nothing is applied any more once the sidechain has ceased. */
  function Apply(mc: seq<bool>, len: EpochLength, s: State, refs: nat): State {
    if s.ceased then s
    else
      var next := NextEpoch(refs, s.info, len);
      var found := HasCertificate(mc, s.seen, s.seen + refs);
      var ceased := ReachesWindowEnd(next, s.info, len) && !found && next.epoch - 1 !in s.certs;
      State(next, s.seen + refs, if found then s.certs + {next.epoch - 1} else s.certs, ceased)
  }

  /** What holds along every run: position, stored certificates, and ceased exactly when dead. */
  ghost predicate Inv(mc: seq<bool>, len: EpochLength, s: State) {
    && s.info.lastIndex <= len && s.seen == EpochStart(s.info.epoch, len) + s.info.lastIndex
    && (forall e: nat :: e >= 1 ==> (e - 1 in s.certs <==> Certified(mc, len, e, s.seen)))
    && (s.ceased <==> Dead(mc, len, s.seen))
  }

  /** Where a block with `refs` references leads, and that its references lie in one epoch. */
  lemma {:induction false} NextPosition(len: EpochLength, s: State, refs: nat)
    requires s.info.lastIndex <= len && s.seen == EpochStart(s.info.epoch, len) + s.info.lastIndex
    requires refs <= BlocksLeft(s.info, len)
    ensures var next := NextEpoch(refs, s.info, len);
      && next.lastIndex <= len && s.seen + refs == EpochStart(next.epoch, len) + next.lastIndex
      && EpochStart(next.epoch, len) <= s.seen
      && s.seen + refs <= EpochStart(next.epoch + 1, len)
      && (ReachesWindowEnd(next, s.info, len)
          <==> next.epoch > 0 && s.seen < EpochStart(next.epoch, len) + Window(len) <= s.seen + refs)
  {
    NextEpochAligned(refs, s.info, len);
    assert EpochStart(s.info.epoch + 1, len) == EpochStart(s.info.epoch, len) + len;
  }

  /** Certificates of an epoch among more blocks: the earlier ones, or one of the new ones. */
  lemma {:induction false} CertifiedMore(mc: seq<bool>, len: EpochLength, e: nat, at: nat, c: nat, d: nat)
    requires EpochStart(at, len) <= c <= d <= EpochStart(at + 1, len)
    ensures Certified(mc, len, e, d) <==> Certified(mc, len, e, c) || (e == at && HasCertificate(mc, c, d))
  {
    if e < at {
      EpochStartGrows(e, at, len);
      assert EpochStart(e + 1, len) <= EpochStart(at, len);
    } else if e > at {
      EpochStartGrows(at, e, len);
      assert EpochStart(at + 1, len) <= EpochStart(e, len);
    }
  }

  /** With well-timed certificates nothing is added after the window. */
  lemma {:induction false} CertifiedInWindow(mc: seq<bool>, len: EpochLength, e: nat, c: nat)
    requires WellTimed(mc, len) && EpochStart(e, len) + Window(len) <= c
    ensures Certified(mc, len, e, c) <==> Certified(mc, len, e, EpochStart(e, len) + Window(len))
  {
  }

  /** A window closes for the first time between two positions of one epoch, or was closed before. */
  lemma {:induction false} MissedMore(mc: seq<bool>, len: EpochLength, e: nat, at: nat, c: nat, d: nat)
    requires EpochStart(at, len) <= c <= d <= EpochStart(at, len) + len
    ensures Missed(mc, len, e, d) <==>
      || Missed(mc, len, e, c)
      || (e == at >= 1 && c < EpochStart(at, len) + Window(len) <= d
        && !Certified(mc, len, at, EpochStart(at, len) + Window(len)))
  {
    if e < at {
      EpochStartGrows(e, at, len);
    } else if e > at {
      EpochStartGrows(at, e, len);
    }
  }

  lemma {:induction false} DeadMore(mc: seq<bool>, len: EpochLength, at: nat, c: nat, d: nat)
    requires WellTimed(mc, len) && EpochStart(at, len) <= c <= d <= EpochStart(at, len) + len && !Dead(mc, len, c)
    ensures Dead(mc, len, d) <==>
      at >= 1 && c < EpochStart(at, len) + Window(len) <= d && !Certified(mc, len, at, d)
  {
    forall e: nat ensures Missed(mc, len, e, d) <==>
      e == at >= 1 && c < EpochStart(at, len) + Window(len) <= d
        && !Certified(mc, len, at, EpochStart(at, len) + Window(len))
    {
      MissedMore(mc, len, e, at, c, d);
    }
    if EpochStart(at, len) + Window(len) <= d {
      CertifiedInWindow(mc, len, at, d);
    }
    if at >= 1 && c < EpochStart(at, len) + Window(len) <= d && !Certified(mc, len, at, d) {
      assert Missed(mc, len, at, d);
    }
  }

  /** However references are grouped into blocks, the sidechain ceases exactly when the mainchain says
      so. */
  lemma {:induction false} BlockKeepsInv(mc: seq<bool>, len: EpochLength, s: State, refs: nat)
    requires WellTimed(mc, len) && Inv(mc, len, s) && refs <= BlocksLeft(s.info, len)
    ensures Inv(mc, len, Apply(mc, len, s, refs))
  {
    if !s.ceased {
      var t := Apply(mc, len, s, refs);
      NextPosition(len, s, refs);
      forall e: nat | e >= 1 ensures e - 1 in t.certs <==> Certified(mc, len, e, t.seen) {
        CertifiedMore(mc, len, e, t.info.epoch, s.seen, t.seen);
      }
      DeadMore(mc, len, t.info.epoch, s.seen, t.seen);
      assert t.info.epoch >= 1 ==> (t.info.epoch - 1 in t.certs <==> Certified(mc, len, t.info.epoch, t.seen));
    }
  }

  /** Blocks that would span two epochs are not accepted. */
  function Run(mc: seq<bool>, len: EpochLength, blocks: seq<nat>): State {
    if blocks == [] then INITIAL
    else
      var s, refs := Run(mc, len, blocks[..|blocks| - 1]), blocks[|blocks| - 1];
      if refs <= BlocksLeft(s.info, len) then Apply(mc, len, s, refs) else s
  }

  lemma {:induction false} RunKeepsInv(mc: seq<bool>, len: EpochLength, blocks: seq<nat>)
    requires WellTimed(mc, len)
    ensures Inv(mc, len, Run(mc, len, blocks))
  {
    if blocks == [] {
      forall e: nat | e >= 1 ensures !Certified(mc, len, e, 0) && !Missed(mc, len, e, 0) {
      }
    } else {
      var s, refs := Run(mc, len, blocks[..|blocks| - 1]), blocks[|blocks| - 1];
      RunKeepsInv(mc, len, blocks[..|blocks| - 1]);
      if refs <= BlocksLeft(s.info, len) {
        BlockKeepsInv(mc, len, s, refs);
      }
    }
  }

  /** In every run the sidechain is alive exactly when every window closed so far had a certificate. */
  lemma {:induction false} AliveIff(mc: seq<bool>, len: EpochLength, blocks: seq<nat>)
    requires WellTimed(mc, len)
    ensures var s := Run(mc, len, blocks);
      !s.ceased <==> forall e: nat :: e >= 1 && EpochStart(e, len) + Window(len) <= s.seen ==>
        Certified(mc, len, e, EpochStart(e, len) + Window(len))
  {
    RunKeepsInv(mc, len, blocks);
    var s := Run(mc, len, blocks);
    if s.ceased {
      var e: nat :| Missed(mc, len, e, s.seen);
      assert e >= 1 && EpochStart(e, len) + Window(len) <= s.seen
        && !Certified(mc, len, e, EpochStart(e, len) + Window(len));
    } else {
      forall e: nat | e >= 1 && EpochStart(e, len) + Window(len) <= s.seen
        ensures Certified(mc, len, e, EpochStart(e, len) + Window(len))
      {
        assert !Missed(mc, len, e, s.seen);
      }
    }
  }

  // ---------------------------------------------------------------- only the number of references matters

  function Total(blocks: seq<nat>): nat {
    if blocks == [] then 0 else Total(blocks[..|blocks| - 1]) + blocks[|blocks| - 1]
  }

  /** Mainchain blocks c to d, the last excluded, lie in epoch e. */
  predicate InEpoch(len: EpochLength, c: nat, d: nat, e: nat) {
    EpochStart(e, len) <= c <= d <= EpochStart(e + 1, len)
  }

  /** The references of each block lie in one epoch. */
  ghost predicate NeverSpans(blocks: seq<nat>, len: EpochLength) {
    blocks == [] ||
    var n := |blocks| - 1;
    NeverSpans(blocks[..n], len) && exists e: nat :: InEpoch(len, Total(blocks[..n]), Total(blocks), e)
  }

  lemma {:induction false} FitsIff(len: EpochLength, info: EpochInfo, c: nat, d: nat, e: nat)
    requires info.lastIndex <= len && c == EpochStart(info.epoch, len) + info.lastIndex && InEpoch(len, c, d, e)
    ensures d - c <= BlocksLeft(info, len)
  {
    assert EpochStart(info.epoch + 1, len) == EpochStart(info.epoch, len) + len;
    if e < info.epoch {
      EpochStartGrows(e, info.epoch, len);
    } else if e > info.epoch {
      EpochStartGrows(info.epoch, e, len);
      assert EpochStart(e + 1, len) == EpochStart(e, len) + len;
    }
  }

  lemma {:induction false} DeadForGood(mc: seq<bool>, len: EpochLength, c: nat, d: nat)
    requires Dead(mc, len, c) && c <= d
    ensures Dead(mc, len, d)
  {
    var e: nat :| Missed(mc, len, e, c);
    assert Missed(mc, len, e, d);
  }

  /** However references are spread over blocks, after n references in all the sidechain has ceased if and only
      if one of the windows that end among the first n mainchain blocks passed without a certificate; until
      then every reference is counted. */
  lemma {:induction false} CeasedIff(mc: seq<bool>, len: EpochLength, blocks: seq<nat>)
    requires WellTimed(mc, len) && NeverSpans(blocks, len)
    ensures Run(mc, len, blocks).ceased <==> Dead(mc, len, Total(blocks))
    ensures !Run(mc, len, blocks).ceased ==> Run(mc, len, blocks).seen == Total(blocks)
  {
    RunKeepsInv(mc, len, blocks);
    if blocks != [] {
      var n := |blocks| - 1;
      var s := Run(mc, len, blocks[..n]);
      CeasedIff(mc, len, blocks[..n]);
      RunKeepsInv(mc, len, blocks[..n]);
      if s.ceased {
        DeadForGood(mc, len, Total(blocks[..n]), Total(blocks));
      } else {
        var e: nat :| InEpoch(len, Total(blocks[..n]), Total(blocks), e);
        FitsIff(len, s.info, Total(blocks[..n]), Total(blocks), e);
      }
    }
  }

  /** The block that ceases the sidechain is the one that references the last mainchain block of a
      submission window. */
  lemma {:induction false} CeasesAtWindowEnd(mc: seq<bool>, len: EpochLength, s: State, refs: nat)
    requires Inv(mc, len, s) && refs <= BlocksLeft(s.info, len) && !s.ceased && Apply(mc, len, s, refs).ceased
    ensures var t := Apply(mc, len, s, refs);
      t.info.epoch >= 1 && s.seen < EpochStart(t.info.epoch, len) + Window(len) <= t.seen
  {
    NextPosition(len, s, refs);
  }

  /** Nothing changes any more after that. */
  lemma {:induction false} CeasedForever(mc: seq<bool>, len: EpochLength, blocks: seq<nat>, more: seq<nat>)
    requires Run(mc, len, blocks).ceased
    ensures Run(mc, len, blocks + more) == Run(mc, len, blocks)
  {
    if more == [] {
      assert blocks + more == blocks;
    } else {
      CeasedForever(mc, len, blocks, more[..|more| - 1]);
      assert (blocks + more)[..|blocks + more| - 1] == blocks + more[..|more| - 1];
    }
  }
}
