/**
 The closed list of forgers and the vote that opens it, once with votes counted block by block on the
 UTXO chain and once with votes counted call by call in the EVM contract.
 */
module ForgerList {
  import opened Collections

  /** A forger by its block-signing key and its VRF key. */
  datatype Forger = Forger(signKey: nat, vrfKey: nat)

  /** A stake accepted for a forger outside the list, with the voters at that moment. */
  datatype Outsider = Outsider(forger: Forger, voters: set<nat>)

  /** One flag per listed forger; `voted` and `outsiders` record what was accepted, in order. */
  datatype State = State(flags: seq<bool>, voted: seq<nat>, outsiders: seq<Outsider>)

  function Count(flags: seq<bool>): nat {
    if flags == [] then 0 else Count(flags[..|flags| - 1]) + if flags[|flags| - 1] then 1 else 0
  }

  function Voters(flags: seq<bool>): set<nat> {
    set i | 0 <= i < |flags| && flags[i]
  }

  /** More than half of the listed forgers have voted. */
  predicate Majority(flags: seq<bool>) {
    Count(flags) > |flags| / 2
  }

  lemma {:induction false} CountIsVoters(flags: seq<bool>)
    ensures Count(flags) == |Voters(flags)| <= |flags|
  {
    if flags != [] {
      var n := |flags| - 1;
      CountIsVoters(flags[..n]);
      assert Voters(flags) == Voters(flags[..n]) + if flags[n] then {n} else {};
    } else {
      assert Voters(flags) == {};
    }
  }

  lemma {:induction false} CountAfterVote(flags: seq<bool>, i: nat)
    requires i < |flags| && !flags[i]
    ensures Count(flags[i := true]) == Count(flags) + 1
  {
    var n := |flags| - 1;
    if i < n {
      CountAfterVote(flags[..n], i);
      assert flags[i := true][..n] == flags[..n][i := true];
    } else {
      assert flags[i := true][..n] == flags[..n];
    }
  }

  // ---------------------------------------------------------------- what every run keeps

  /** The accepted votes are the flags, each once; every outsider came after a strict majority. */
  predicate Good(s: State, list: seq<Forger>) {
    && |s.flags| == |list|
    && Distinct(s.voted) && |s.voted| == Count(s.flags)
    && (forall i :: 0 <= i < |s.voted| ==> s.voted[i] < |s.flags| && s.flags[s.voted[i]])
    && (forall i :: 0 <= i < |s.outsiders| ==>
          && 2 * |s.outsiders[i].voters| > |list|
          && s.outsiders[i].voters <= Voters(s.flags))
  }

  /** Opening is permanent: flags are never taken back. */
  predicate Keeps(before: State, after: State) {
    && |before.flags| == |after.flags|
    && forall i :: 0 <= i < |before.flags| && before.flags[i] ==> after.flags[i]
  }

  lemma {:induction false} MajorityIsPermanent(before: State, after: State)
    requires Keeps(before, after) && Majority(before.flags)
    ensures Majority(after.flags)
  {
    CountIsVoters(before.flags);
    CountIsVoters(after.flags);
    assert Voters(before.flags) <= Voters(after.flags);
    SubsetIsSmaller(Voters(before.flags), Voters(after.flags));
  }

  lemma {:induction false} VoteKeepsGood(s: State, list: seq<Forger>, i: nat)
    requires Good(s, list) && i < |list| && !s.flags[i]
    ensures Good(s.(flags := s.flags[i := true], voted := s.voted + [i]), list)
  {
    CountAfterVote(s.flags, i);
    assert Voters(s.flags) <= Voters(s.flags[i := true]);
  }

  lemma {:induction false} OutsiderKeepsGood(s: State, list: seq<Forger>, f: Forger)
    requires Good(s, list) && Majority(s.flags)
    ensures Good(s.(outsiders := s.outsiders + [Outsider(f, Voters(s.flags))]), list)
  {
    CountIsVoters(s.flags);
  }

  // ---------------------------------------------------------------- the EVM contract

  /** Addition of bytes wraps around. */
  function Wrap(x: int): int {
    (x + 128) % 256 - 128
  }

  function ByteSum(flags: seq<bool>): int {
    if flags == [] then 0 else Wrap(ByteSum(flags[..|flags| - 1]) + if flags[|flags| - 1] then 1 else 0)
  }

  /** The contract's test adds up the flags as bytes. */
  predicate EvmOpen(flags: seq<bool>) {
    ByteSum(flags) > |flags| / 2
  }

  lemma {:induction false} ByteSumIsWrappedCount(flags: seq<bool>)
    ensures ByteSum(flags) == Wrap(Count(flags))
  {
    if flags != [] {
      ByteSumIsWrappedCount(flags[..|flags| - 1]);
    }
  }

  /** A vote: the caller's signature must be the listed forger's. */
  function EvmVote(s: State, list: seq<Forger>, index: int, signer: nat): State
    requires |s.flags| == |list|
  {
    if 0 <= index < |list| && signer == list[index].signKey && !EvmOpen(s.flags) && !s.flags[index] then
      s.(flags := s.flags[index := true], voted := s.voted + [index])
    else s
  }

  function EvmStake(s: State, list: seq<Forger>, f: Forger): State {
    if f !in list && EvmOpen(s.flags) then s.(outsiders := s.outsiders + [Outsider(f, Voters(s.flags))]) else s
  }

  datatype EvmStep = Vote(index: int, signer: nat) | Stake(forger: Forger)

  function EvmApply(s: State, list: seq<Forger>, step: EvmStep): State
    requires |s.flags| == |list|
  {
    match step
    case Vote(i, k) => EvmVote(s, list, i, k)
    case Stake(f) => EvmStake(s, list, f)
  }

  /** Votes stop as soon as a strict majority is reached. */
  predicate EvmGood(s: State, list: seq<Forger>) {
    Good(s, list) && (|list| < 254 ==> Count(s.flags) <= |list| / 2 + 1)
  }

  /** With fewer than 254 forgers the byte sum tells exactly whether there is a majority; with more it
      never gets above half, so the list can never be opened. */
  lemma {:induction false} EvmOpenIffMajority(s: State, list: seq<Forger>)
    requires EvmGood(s, list)
    ensures EvmOpen(s.flags) <==> Majority(s.flags) && |list| < 254
  {
    ByteSumIsWrappedCount(s.flags);
  }

  lemma {:induction false} EvmStepKeepsGood(s: State, list: seq<Forger>, step: EvmStep)
    requires EvmGood(s, list)
    ensures EvmGood(EvmApply(s, list, step), list) && Keeps(s, EvmApply(s, list, step))
  {
    EvmOpenIffMajority(s, list);
    match step
    case Vote(i, k) =>
      if 0 <= i < |list| && !s.flags[i] {
        VoteKeepsGood(s, list, i);
        CountAfterVote(s.flags, i);
      }
    case Stake(f) =>
      if EvmOpen(s.flags) {
        OutsiderKeepsGood(s, list, f);
      }
  }

  function Initial(list: seq<Forger>): State {
    State(seq(|list|, i => false), [], [])
  }

  lemma {:induction false} InitialIsGood(list: seq<Forger>)
    ensures EvmGood(Initial(list), list)
  {
    CountIsVoters(Initial(list).flags);
    assert Voters(Initial(list).flags) == {};
  }

  function EvmRun(list: seq<Forger>, steps: seq<EvmStep>): (s: State)
    ensures |s.flags| == |list|
  {
    if steps == [] then Initial(list) else EvmApply(EvmRun(list, steps[..|steps| - 1]), list, steps[|steps| - 1])
  }

  /** In every run each forger votes at most once, no more than a majority ever votes, and every stake
      for an outsider was accepted after a strict majority had voted. */
  lemma {:induction false} EvmRunIsGood(list: seq<Forger>, steps: seq<EvmStep>)
    ensures EvmGood(EvmRun(list, steps), list)
  {
    if steps == [] {
      InitialIsGood(list);
    } else {
      EvmRunIsGood(list, steps[..|steps| - 1]);
      EvmStepKeepsGood(EvmRun(list, steps[..|steps| - 1]), list, steps[|steps| - 1]);
    }
  }

  /** The listed forgers whose signed votes occur among the steps. */
  function Signers(list: seq<Forger>, steps: seq<EvmStep>): set<nat> {
    set i | 0 <= i < |list| && Vote(i, list[i].signKey) in steps
  }

  lemma {:induction false} SignersSnoc(list: seq<Forger>, steps: seq<EvmStep>, step: EvmStep)
    ensures Signers(list, steps + [step]) == Signers(list, steps)
      + set i | 0 <= i < |list| && step == Vote(i, list[i].signKey)
  {
  }

  /** A vote signed with the key of a listed forger who has not voted, while there is no majority. */
  predicate VoteCounts(s: State, list: seq<Forger>, index: int, signer: nat) {
    && 0 <= index < |list| && signer == list[index].signKey && index !in Voters(s.flags)
    && 2 * |Voters(s.flags)| <= |list|
  }

  /** Exactly such votes count. */
  lemma {:induction false} EvmVoteCountsIff(s: State, list: seq<Forger>, index: int, signer: nat)
    requires EvmGood(s, list) && |list| < 254
    ensures var t := EvmApply(s, list, Vote(index, signer));
      if VoteCounts(s, list, index, signer) then Voters(t.flags) == Voters(s.flags) + {index} else t == s
  {
    EvmOpenIffMajority(s, list);
    CountIsVoters(s.flags);
  }

  /** A stake for a forger outside the list is accepted if and only if there is a majority. */
  lemma {:induction false} EvmStakeCountsIff(s: State, list: seq<Forger>, f: Forger)
    requires EvmGood(s, list) && |list| < 254 && f !in list
    ensures EvmApply(s, list, Stake(f)) ==
      if 2 * |Voters(s.flags)| > |list| then s.(outsiders := s.outsiders + [Outsider(f, Voters(s.flags))]) else s
  {
    EvmOpenIffMajority(s, list);
    CountIsVoters(s.flags);
  }

  lemma {:induction false} EvmStepVoters(s: State, list: seq<Forger>, signers: set<nat>, step: EvmStep)
    requires EvmGood(s, list) && |list| < 254
    requires Voters(s.flags) <= signers && (2 * |Voters(s.flags)| <= |list| ==> Voters(s.flags) == signers)
    ensures var t := EvmApply(s, list, step);
      var more := signers + set i | 0 <= i < |list| && step == Vote(i, list[i].signKey);
      Voters(t.flags) <= more && (2 * |Voters(t.flags)| <= |list| ==> Voters(t.flags) == more)
  {
    match step
    case Vote(index, key) =>
      EvmVoteCountsIff(s, list, index, key);
      SubsetIsSmaller(Voters(s.flags), Voters(EvmApply(s, list, step).flags));
    case Stake(f) =>
      assert EvmApply(s, list, step).flags == s.flags;
  }

  lemma {:induction false} EvmVotersSigned(list: seq<Forger>, steps: seq<EvmStep>)
    requires |list| < 254
    ensures var s := EvmRun(list, steps);
      && Voters(s.flags) <= Signers(list, steps)
      && (2 * |Voters(s.flags)| <= |list| ==> Voters(s.flags) == Signers(list, steps))
  {
    if steps == [] {
      assert Voters(Initial(list).flags) == {} == Signers(list, steps);
    } else {
      var n := |steps| - 1;
      EvmVotersSigned(list, steps[..n]);
      EvmRunIsGood(list, steps[..n]);
      SignersSnoc(list, steps[..n], steps[n]);
      assert steps == steps[..n] + [steps[n]];
      EvmStepVoters(EvmRun(list, steps[..n]), list, Signers(list, steps[..n]), steps[n]);
    }
  }

  /** In every run the list is open if and only if more than half of the listed forgers have signed a vote. */
  lemma {:induction false} EvmRunOpenIff(list: seq<Forger>, steps: seq<EvmStep>)
    requires |list| < 254
    ensures EvmOpen(EvmRun(list, steps).flags) <==> 2 * |Signers(list, steps)| > |list|
    ensures Voters(EvmRun(list, steps).flags) <= Signers(list, steps)
  {
    EvmRunIsGood(list, steps);
    EvmVotersSigned(list, steps);
    var s := EvmRun(list, steps);
    EvmOpenIffMajority(s, list);
    CountIsVoters(s.flags);
    SubsetIsSmaller(Voters(s.flags), Signers(list, steps));
  }

  /** The contract works on the flags in place. */
  class Contract {
    const list: seq<Forger>
    const flags: array<bool>

    ghost predicate Valid()
      reads this
    {
      flags.Length == |list|
    }

    constructor (list: seq<Forger>)
      ensures this.list == list && Valid() && fresh(flags) && flags[..] == Initial(list).flags
    {
      this.list := list;
      flags := new bool[|list|](i => false);
    }

    method IsOpen() returns (open: bool)
      requires Valid()
      ensures open == EvmOpen(flags[..])
    {
      var sum := 0;
      for n := 0 to flags.Length
        invariant sum == ByteSum(flags[..n])
      {
        assert flags[..n + 1][..n] == flags[..n];
        sum := Wrap(sum + if flags[n] then 1 else 0);
      }
      assert flags[..flags.Length] == flags[..];
      open := sum > flags.Length / 2;
    }

    method OpenStake(index: int, signer: nat, ghost s: State) returns (ok: bool)
      requires Valid() && s.flags == flags[..]
      modifies flags
      ensures flags[..] == EvmVote(s, list, index, signer).flags
      ensures ok <==> EvmVote(s, list, index, signer) != s
    {
      if index < 0 || index >= |list| || signer != list[index].signKey {
        return false;
      }
      var open := IsOpen();
      if open || flags[index] {
        return false;
      }
      flags[index] := true;
      assert s.flags[index := true][index] != s.flags[index];
      return true;
    }
  }

  // ---------------------------------------------------------------- the UTXO chain

  /** A vote that spends a box of the given key. */
  datatype Ballot = Ballot(index: int, key: nat)

  /** Votes and stakes of a block; every one of them is checked against the state before the block. */
  datatype Block = Block(ballots: seq<Ballot>, stakes: seq<Forger>)

  predicate BallotAccepted(s: State, list: seq<Forger>, v: Ballot)
    requires |s.flags| == |list|
  {
    !Majority(s.flags) && 0 <= v.index < |list| && !s.flags[v.index] && v.key == list[v.index].signKey
  }

  predicate StakeAccepted(s: State, list: seq<Forger>, f: Forger) {
    f in list || Majority(s.flags)
  }

  predicate BlockAccepted(s: State, list: seq<Forger>, b: Block) {
    && |s.flags| == |list|
    && (forall i, k :: 0 <= i < k < |b.ballots| ==> b.ballots[i].index != b.ballots[k].index)
    && (forall i :: 0 <= i < |b.ballots| ==> BallotAccepted(s, list, b.ballots[i]))
    && (forall i :: 0 <= i < |b.stakes| ==> StakeAccepted(s, list, b.stakes[i]))
  }

  /** The forgers a block's ballots name. */
  function VotesOf(ballots: seq<Ballot>): (votes: seq<nat>)
    requires forall i :: 0 <= i < |ballots| ==> ballots[i].index >= 0
    ensures |votes| == |ballots| && forall i :: 0 <= i < |votes| ==> votes[i] == ballots[i].index
  {
    seq<nat>(|ballots|, i requires 0 <= i < |ballots| => ballots[i].index)
  }

  /** One ballot is accepted if and only if there is no majority yet and it comes from the listed forger it
      names, who has not voted. */
  lemma {:induction false} OneBallotIff(s: State, list: seq<Forger>, v: Ballot)
    requires Good(s, list)
    ensures BlockAccepted(s, list, Block([v], [])) <==>
      2 * |Voters(s.flags)| <= |list| && 0 <= v.index < |list| && v.index !in s.voted && v.key == list[v.index].signKey
  {
    CountIsVoters(s.flags);
    VotedAreVoters(s, list);
    if 0 <= v.index < |list| {
      assert v.index in SetOf(s.voted) <==> v.index in s.voted;
      assert v.index in Voters(s.flags) <==> s.flags[v.index];
    }
    assert BlockAccepted(s, list, Block([v], [])) <==> BallotAccepted(s, list, v) by {
      assert [v][0] == v;
    }
  }

  /** One stake is accepted if and only if it is for a listed forger or there is a majority. */
  lemma {:induction false} OneStakeIff(s: State, list: seq<Forger>, f: Forger)
    requires Good(s, list)
    ensures BlockAccepted(s, list, Block([], [f])) <==> f in list || 2 * |Voters(s.flags)| > |list|
  {
    CountIsVoters(s.flags);
    assert [f][0] == f;
  }

  /** A block is accepted if and only if each of its parts alone would be, and no two ballots name the same
      forger. */
  lemma {:induction false} BlockIsItsParts(s: State, list: seq<Forger>, b: Block)
    requires Good(s, list)
    ensures BlockAccepted(s, list, b) <==>
      && (forall i :: 0 <= i < |b.ballots| ==> BlockAccepted(s, list, Block([b.ballots[i]], [])))
      && (forall i :: 0 <= i < |b.stakes| ==> BlockAccepted(s, list, Block([], [b.stakes[i]])))
      && (forall i, k :: 0 <= i < k < |b.ballots| ==> b.ballots[i].index != b.ballots[k].index)
  {
    forall i | 0 <= i < |b.ballots|
      ensures BlockAccepted(s, list, Block([b.ballots[i]], [])) <==> BallotAccepted(s, list, b.ballots[i])
    {
      assert [b.ballots[i]][0] == b.ballots[i];
    }
    forall i | 0 <= i < |b.stakes|
      ensures BlockAccepted(s, list, Block([], [b.stakes[i]])) <==> StakeAccepted(s, list, b.stakes[i])
    {
      assert [b.stakes[i]][0] == b.stakes[i];
    }
  }

  /** The recorded votes are the flags. */
  lemma {:induction false} VotedAreVoters(s: State, list: seq<Forger>)
    requires Good(s, list)
    ensures SetOf(s.voted) == Voters(s.flags)
  {
    SetOfCount(s.voted);
    CountIsVoters(s.flags);
    assert SetOf(s.voted) <= Voters(s.flags);
    SameSize(SetOf(s.voted), Voters(s.flags));
  }

  function SetAll(flags: seq<bool>, votes: seq<nat>): (r: seq<bool>)
    ensures |r| == |flags|
    ensures forall i :: 0 <= i < |flags| ==> r[i] == (flags[i] || i in votes)
  {
    seq(|flags|, i requires 0 <= i < |flags| => flags[i] || i in votes)
  }

  function Outsiders(list: seq<Forger>, voters: set<nat>, stakes: seq<Forger>): seq<Outsider> {
    if stakes == [] then []
    else
      var before, f := Outsiders(list, voters, stakes[..|stakes| - 1]), stakes[|stakes| - 1];
      if f in list then before else before + [Outsider(f, voters)]
  }

  function BlockApply(s: State, list: seq<Forger>, b: Block): State {
    if BlockAccepted(s, list, b) then
      var votes := VotesOf(b.ballots);
      State(SetAll(s.flags, votes), s.voted + votes, s.outsiders + Outsiders(list, Voters(s.flags), b.stakes))
    else s
  }

  lemma {:induction false} VotesKeepGood(s: State, list: seq<Forger>, votes: seq<nat>)
    requires Good(s, list) && Distinct(votes)
    requires forall i :: 0 <= i < |votes| ==> votes[i] < |list| && !s.flags[votes[i]]
    ensures Good(s.(flags := SetAll(s.flags, votes), voted := s.voted + votes), list)
    ensures Count(SetAll(s.flags, votes)) == Count(s.flags) + |votes|
  {
    if votes == [] {
      assert SetAll(s.flags, votes) == s.flags && s.voted + votes == s.voted;
    } else {
      var n := |votes| - 1;
      VotesKeepGood(s, list, votes[..n]);
      var t := s.(flags := SetAll(s.flags, votes[..n]), voted := s.voted + votes[..n]);
      assert votes == votes[..n] + [votes[n]];
      assert votes[n] !in votes[..n];
      VoteKeepsGood(t, list, votes[n]);
      CountAfterVote(t.flags, votes[n]);
      assert t.flags[votes[n] := true] == SetAll(s.flags, votes);
      assert t.voted + [votes[n]] == s.voted + votes;
    }
  }

  lemma {:induction false} StakesKeepGood(s: State, list: seq<Forger>, voters: set<nat>, stakes: seq<Forger>)
    requires Good(s, list) && voters <= Voters(s.flags)
    requires (forall i :: 0 <= i < |stakes| ==> stakes[i] in list) || 2 * |voters| > |list|
    ensures Good(s.(outsiders := s.outsiders + Outsiders(list, voters, stakes)), list)
  {
    if stakes == [] {
      assert s.outsiders + [] == s.outsiders;
    } else {
      var n := |stakes| - 1;
      StakesKeepGood(s, list, voters, stakes[..n]);
      var before := s.outsiders + Outsiders(list, voters, stakes[..n]);
      assert stakes[n] !in list
        ==> s.outsiders + Outsiders(list, voters, stakes) == before + [Outsider(stakes[n], voters)];
    }
  }

  lemma {:induction false} BlockKeepsGood(s: State, list: seq<Forger>, b: Block)
    requires Good(s, list)
    ensures Good(BlockApply(s, list, b), list) && Keeps(s, BlockApply(s, list, b))
  {
    if BlockAccepted(s, list, b) {
      var votes := VotesOf(b.ballots);
      assert forall i :: 0 <= i < |votes| ==> BallotAccepted(s, list, b.ballots[i]);
      VotesKeepGood(s, list, votes);
      CountIsVoters(s.flags);
      var t := s.(flags := SetAll(s.flags, votes), voted := s.voted + votes);
      assert Voters(s.flags) <= Voters(t.flags);
      if !Majority(s.flags) {
        assert forall i :: 0 <= i < |b.stakes| ==> StakeAccepted(s, list, b.stakes[i]);
      }
      StakesKeepGood(t, list, Voters(s.flags), b.stakes);
    }
  }

  /** A proper ballot of every listed forger. */
  function AllBallots(list: seq<Forger>): seq<Ballot> {
    seq(|list|, i requires 0 <= i < |list| => Ballot(i, list[i].signKey))
  }

  /** Five listed forgers can all vote in one block. */
  lemma {:induction false} BlockCanExceedMajority(list: seq<Forger>)
    requires |list| == 5
    ensures var s, b := State([false, false, false, false, false], [], []), Block(AllBallots(list), []);
      Good(s, list) && BlockAccepted(s, list, b) && |BlockApply(s, list, b).voted| == 5 > |list| / 2 + 1
  {
    var flags := [false, false, false, false, false];
    CountIsVoters(flags);
    assert Voters(flags) == {};
  }

  function BlockRun(list: seq<Forger>, blocks: seq<Block>): State {
    if blocks == [] then Initial(list)
    else BlockApply(BlockRun(list, blocks[..|blocks| - 1]), list, blocks[|blocks| - 1])
  }

  /** In every run of blocks each forger votes at most once and every stake for an outsider was accepted
      after a strict majority had voted. */
  lemma {:induction false} BlockRunIsGood(list: seq<Forger>, blocks: seq<Block>)
    ensures Good(BlockRun(list, blocks), list)
  {
    if blocks == [] {
      InitialIsGood(list);
    } else {
      BlockRunIsGood(list, blocks[..|blocks| - 1]);
      BlockKeepsGood(BlockRun(list, blocks[..|blocks| - 1]), list, blocks[|blocks| - 1]);
    }
  }

  // ---------------------------------------------------------------- how many vote on the UTXO chain

  /** Once the list is open no vote is accepted any more. */
  lemma {:induction false} NoVoteAfterOpening(s: State, list: seq<Forger>, b: Block)
    requires Majority(s.flags)
    ensures BlockApply(s, list, b).voted == s.voted
  {
    if BlockAccepted(s, list, b) {
      assert b.ballots != [] ==> BallotAccepted(s, list, b.ballots[0]);
      assert VotesOf(b.ballots) == [];
    }
    assert s.voted + [] == s.voted;
  }

  /** The last block of the run opens the list. */
  predicate Opens(list: seq<Forger>, blocks: seq<Block>)
    requires blocks != []
  {
    !Majority(BlockRun(list, blocks[..|blocks| - 1]).flags) && Majority(BlockRun(list, blocks).flags)
  }

  /** Wherever in the run the list opens, the block carries exactly the votes that were missing. */
  predicate ExactOpening(list: seq<Forger>, blocks: seq<Block>) {
    blocks != [] ==>
      var n := |blocks| - 1;
      && ExactOpening(list, blocks[..n])
      && (Opens(list, blocks) ==> |blocks[n].ballots| == |list| / 2 + 1 - |BlockRun(list, blocks[..n]).voted|)
  }

  lemma {:induction false} BlockRunStep(list: seq<Forger>, blocks: seq<Block>)
    requires blocks != []
    ensures var n := |blocks| - 1;
      && BlockRun(list, blocks) == BlockApply(BlockRun(list, blocks[..n]), list, blocks[n])
      && Good(BlockRun(list, blocks[..n]), list) && Good(BlockRun(list, blocks), list)
      && Keeps(BlockRun(list, blocks[..n]), BlockRun(list, blocks))
  {
    BlockRunIsGood(list, blocks[..|blocks| - 1]);
    BlockRunIsGood(list, blocks);
    BlockKeepsGood(BlockRun(list, blocks[..|blocks| - 1]), list, blocks[|blocks| - 1]);
  }

  /** In every run at most half of the listed forgers have voted before the list opens, and in the end at
      most half plus one if and only if the opening block carries exactly the missing votes. */
  lemma {:induction false} VotesBoundedIff(list: seq<Forger>, blocks: seq<Block>)
    ensures !Majority(BlockRun(list, blocks).flags) ==> |BlockRun(list, blocks).voted| <= |list| / 2
    ensures |BlockRun(list, blocks).voted| <= |list| / 2 + 1 <==> ExactOpening(list, blocks)
  {
    if blocks != [] {
      var n := |blocks| - 1;
      VotesBoundedIff(list, blocks[..n]);
      BlockRunStep(list, blocks);
      OneMoreBlock(BlockRun(list, blocks[..n]), list, blocks[n]);
    }
  }

  /** What one block does to the number of votes. */
  lemma {:induction false} OneMoreBlock(s: State, list: seq<Forger>, b: Block)
    requires Good(s, list) && Good(BlockApply(s, list, b), list) && Keeps(s, BlockApply(s, list, b))
    ensures Majority(s.flags) ==> BlockApply(s, list, b).voted == s.voted && Majority(BlockApply(s, list, b).flags)
    ensures !Majority(s.flags) && Majority(BlockApply(s, list, b).flags) ==>
      |BlockApply(s, list, b).voted| == |s.voted| + |b.ballots| > |list| / 2
    ensures !Majority(BlockApply(s, list, b).flags) ==> |BlockApply(s, list, b).voted| <= |list| / 2
  {
    if Majority(s.flags) {
      NoVoteAfterOpening(s, list, b);
      MajorityIsPermanent(s, BlockApply(s, list, b));
    }
  }
}
