/**
 * The pallet's unit-test scenarios, replayed on the model. Accounts start
 * with empty ledgers, every scenario starts in block 1, and the voting
 * period is taken to be 100 blocks.
 */
module Scenarios {
  import opened Types
  import opened Arith
  import opened Balances
  import opened Tally
  import opened Voting

  const PERIOD: BlockNumber := 100

  function Empty(): State
  {
    Genesis(Book(map[], map[]))
  }

  /** Root registers `voter` with `fee`. */
  function Registered(s: State, voter: AccountId, fee: Balance): State
  {
    Commit(s, RegisterVoter(s, Root, voter, fee))
  }

  /** Register 5, reserve 50, unreserve 50: free balance 95, then 45, then 70. */
  lemma ReserveThenUnreserve()
    ensures var s1 := Registered(Empty(), 1, 5);
      var r2 := ReserveTokens(s1, Signed(1), 50);
      var r3 := UnreserveTokens(Commit(s1, r2), Signed(1), 50);
      && GetVoterBalance(s1, 1) == 95
      && r2.Ok? && GetVoterBalance(r2.value, 1) == 45
      && r3.Ok? && GetVoterBalance(r3.value, 1) == 70
      && r3.value.events[|r3.value.events| - 1] == TokensUnreserved(1, 50, 70)
  {
  }

  /** Registration refuses a zero fee, a second registration and a fee above 100. */
  lemma RegistrationErrors()
    ensures RegisterVoter(Empty(), Root, 1, 0) == Err(InsufficientFee)
    ensures RegisterVoter(Registered(Empty(), 1, 5), Root, 1, 5) == Err(VoterAlreadyRegistered)
    ensures RegisterVoter(Empty(), Root, 1, 101) == Err(SubstractionOverflow)
    ensures RegisterVoter(Empty(), Signed(1), 1, 5) == Err(BadOrigin)
  {
  }

  /** Voter 1 (fee 5) has created proposal 1 in block 1. */
  function OneProposal(): State
  {
    var s := Registered(Empty(), 1, 5);
    Commit(s, CreateProposal(s, Signed(1), 7, 1, PERIOD))
  }

  /**
   * The first proposal gets index 1 and is not started; starting it for
   * 10 leaves 85; it cannot be started twice, nor for 100 (more than the
   * 95 held), nor for nothing.
   */
  lemma CreateAndStart()
    ensures var s := OneProposal();
      && s.proposals.Keys == {1}
      && s.proposals[1] == Proposal(1, 7, 1, 1 + PERIOD, NotStarted)
      && s.events[|s.events| - 1] == NewProposalCreated(1, 7, 1 + PERIOD)
      && StartProposal(s, Signed(1), 1, 100) == Err(NotEnoughBalance)
      && StartProposal(s, Signed(1), 1, 0) == Err(InsufficientFee)
      && StartProposal(s, Signed(1), 2, 10) == Err(ProposalNotFound)
      && StartProposal(s, Signed(2), 1, 10) == Err(NotRegisteredVoter)
      && var r := StartProposal(s, Signed(1), 1, 10);
         && r.Ok? && r.value.proposals[1].status == InProgress
         && GetVoterBalance(r.value, 1) == 85
         && StartProposal(r.value, Signed(1), 1, 10) == Err(ProposalAlreadyStarted)
  {
    GenesisValid(Book(map[], map[]));
  }

  /** Proposal 1 started by voter 1 for 10, in block 1. */
  function Started(): State
  {
    var s := OneProposal();
    Commit(s, StartProposal(s, Signed(1), 1, 10))
  }

  /**
   * With nothing reserved an Aye is refused; with 50 reserved it records
   * weight 7 and spends nothing; a second Aye is refused.
   */
  lemma VoteWithReservedTokens(order: seq<ProposalIndex>)
    ensures VoteProposal(Started(), Signed(1), 1, Aye, 2, order) == Err(NotEnoughReservedTokens)
    ensures var s := Started();
      var reserved := Commit(s, ReserveTokens(s, Signed(1), 50));
      var r := VoteProposal(reserved, Signed(1), 1, Aye, 2, order);
      && r.Ok? && r.value.ayeVotes[(1, 1)] == 7
      && r.value.events[|r.value.events| - 1] == ProposalVoted(1, Aye)
      && GetVoterBalance(r.value, 1) == 35 && r.value.ledger.Reserved(1) == 50
      && VoteProposal(r.value, Signed(1), 1, Aye, 2, order) == Err(VoterAlreadyVoted)
  {
    GenesisValid(Book(map[], map[]));
    IsqrtUnique(50, 7);
  }

  /**
   * The Aye table at the end of the winner test: proposal 1 holds 7 + 6,
   * proposal 2 holds 6 + 5 + 9 (voter 3 voted with 40, then 90 reserved).
   */
  function WinnerTestVotes(): Votes
  {
    map[(1, 1) := Isqrt(50), (1, 3) := Isqrt(40), (2, 2) := Isqrt(40), (2, 4) := Isqrt(30), (2, 3) := Isqrt(90)]
  }

  lemma WinnerTest()
    ensures TotalOf(WinnerTestVotes(), 1) == 13
    ensures TotalOf(WinnerTestVotes(), 2) == 20
    ensures WinnerOf(WinnerTestVotes(), [1, 2]) == 2
    ensures WinnerOf(WinnerTestVotes(), [2, 1]) == 2
  {
    var votes := WinnerTestVotes();
    IsqrtUnique(50, 7);
    IsqrtUnique(40, 6);
    IsqrtUnique(30, 5);
    IsqrtUnique(90, 9);
    assert KeysOf(votes, 1) == {(1, 1), (1, 3)};
    SumOverRemove(votes, {(1, 1), (1, 3)}, (1, 1));
    SumOverRemove(votes, {(1, 3)}, (1, 3));
    assert {(1, 1), (1, 3)} - {(1, 1)} == {(1, 3)};
    assert KeysOf(votes, 2) == {(2, 2), (2, 4), (2, 3)};
    SumOverRemove(votes, {(2, 2), (2, 4), (2, 3)}, (2, 2));
    assert {(2, 2), (2, 4), (2, 3)} - {(2, 2)} == {(2, 4), (2, 3)};
    SumOverRemove(votes, {(2, 4), (2, 3)}, (2, 4));
    assert {(2, 4), (2, 3)} - {(2, 4)} == {(2, 3)};
    SumOverRemove(votes, {(2, 3)}, (2, 3));
    assert [1, 2][..1] == [1] && [2, 1][..1] == [2];
    assert [1][..0] == [] && [2][..0] == [];
  }

  /** Two proposals started by voter 1, who has reserved `reserved` of the 75 left after both fees. */
  function TwoStarted(reserved: Balance): State
    requires reserved <= 75
  {
    State({1},
          map[1 := Proposal(1, 7, 1, 1 + PERIOD, InProgress), 2 := Proposal(2, 8, 1, 1 + PERIOD, InProgress)],
          2, map[], Book(map[1 := 75 - reserved], map[1 := reserved]), [])
  }

  /** Aye 50 on proposal 1 and Aye 20 on proposal 2. */
  function LargeBatch(): seq<BatchItem>
  {
    [BatchItem(1, 50, Aye), BatchItem(2, 20, Aye)]
  }

  /**
   * With 70 reserved, the batch of 50 and 20 is accepted: it records
   * weights 7 and 4, spends nothing, and its last event lists both
   * proposals.
   */
  lemma MultipleVotes()
    ensures var r := VoteMultipleProposals(TwoStarted(70), Signed(1), LargeBatch(), 2, [1, 2]);
      && r.Ok?
      && r.value.ayeVotes == map[(1, 1) := 7, (2, 1) := 4]
      && r.value.ledger == TwoStarted(70).ledger
      && r.value.events[|r.value.events| - 1] == ProposalsVoted([1, 2])
  {
    var batch := LargeBatch();
    var s := TwoStarted(70);
    IsqrtUnique(50, 7);
    IsqrtUnique(20, 4);
    assert batch[1..] == [BatchItem(2, 20, Aye)] && batch[1..][1..] == [];
    assert Indices(batch) == [1, 2];
    assert AyeKeys(batch, 1) == {(1, 1), (2, 1)} by {
      assert batch[0].index == 1 && batch[1].index == 2;
    }
    assert AyeWeight(batch, 1) == 7 && AyeWeight(batch, 2) == 4;
    var r := VoteMultipleProposals(s, Signed(1), batch, 2, [1, 2]);
    assert BatchAccepted(s, 1, batch);
    var votes := map[(1, 1) := 7, (2, 1) := 4];
    assert r.value.ayeVotes == votes by {
      assert WeightOf(r.value.ayeVotes, (1, 1)) == 7;
      assert WeightOf(r.value.ayeVotes, (2, 1)) == 4;
    }
  }

  /** The first batch of the expiry test: Aye 10 on proposal 1 and Aye 5 on proposal 2. */
  function FirstBatch(): seq<BatchItem>
  {
    [BatchItem(1, 10, Aye), BatchItem(2, 5, Aye)]
  }

  /**
   * With 60 reserved, the batch of 10 and 5 records weights 3 and 2, and
   * deposits one event per Aye item, each listing both indices.
   */
  lemma BatchTest()
    ensures var r := VoteMultipleProposals(TwoStarted(60), Signed(1), FirstBatch(), 2, [1, 2]);
      && r.Ok?
      && r.value.ayeVotes == map[(1, 1) := 3, (2, 1) := 2]
      && r.value.events == [ProposalsVoted([1, 2]), ProposalsVoted([1, 2])]
  {
    var batch := FirstBatch();
    var s := TwoStarted(60);
    IsqrtUnique(10, 3);
    IsqrtUnique(5, 2);
    assert batch[1..] == [BatchItem(2, 5, Aye)] && batch[1..][1..] == [];
    assert Indices(batch) == [1, 2];
    assert AyeKeys(batch, 1) == {(1, 1), (2, 1)} by {
      assert batch[0].index == 1 && batch[1].index == 2;
    }
    assert AyeWeight(batch, 1) == 3 && AyeWeight(batch, 2) == 2;
    var r := VoteMultipleProposals(s, Signed(1), batch, 2, [1, 2]);
    assert BatchAccepted(s, 1, batch);
    var votes := map[(1, 1) := 3, (2, 1) := 2];
    assert r.value.ayeVotes == votes by {
      assert WeightOf(r.value.ayeVotes, (1, 1)) == 3;
      assert WeightOf(r.value.ayeVotes, (2, 1)) == 2;
    }
  }

  /** The state after the first batch, with voter 2 registered (fee 5) and holding 10 reserved. */
  function AfterFirstBatch(): State
  {
    State({1, 2},
          map[1 := Proposal(1, 7, 1, 1 + PERIOD, InProgress), 2 := Proposal(2, 8, 1, 1 + PERIOD, InProgress)],
          2, map[(1, 1) := 3, (2, 1) := 2], Book(map[1 := 15, 2 := 85], map[1 := 60, 2 := 10]), [])
  }

  /**
   * In block 250 the second voter's batch records nothing: it completes
   * the winner, proposal 1 (3 against 2), and announces it.
   */
  lemma BatchAfterPeriod()
    ensures var e := VoteMultipleProposals(AfterFirstBatch(), Signed(2),
                                           [BatchItem(1, 5, Aye), BatchItem(2, 4, Aye)], 250, [1, 2]);
      && e.Ok?
      && e.value.ayeVotes == AfterFirstBatch().ayeVotes
      && e.value.proposals[1].status == Completed
      && e.value.proposals[2].status == InProgress
      && e.value.events[|e.value.events| - 1] == VotingEnded(1)
  {
    var votes := AfterFirstBatch().ayeVotes;
    assert KeysOf(votes, 1) == {(1, 1)};
    SumOverRemove(votes, {(1, 1)}, (1, 1));
    assert KeysOf(votes, 2) == {(2, 1)};
    SumOverRemove(votes, {(2, 1)}, (2, 1));
    assert [1, 2][..1] == [1] && [1][..0] == [];
    assert WinnerOf(votes, [1, 2]) == 1;
  }

  /**
   * When no Aye was ever recorded, a batch sent after the period panics:
   * the winner is 0 and there is no proposal 0 to complete.
   */
  lemma BatchAfterPeriodWithoutVotes()
    ensures VoteMultipleProposals(TwoStarted(60), Signed(1), [BatchItem(1, 10, Aye)], 250, [1, 2]) == Err(Panicked)
  {
    var empty: Votes := map[];
    assert KeysOf(empty, 1) == {} && KeysOf(empty, 2) == {};
    assert [1, 2][..1] == [1] && [1][..0] == [];
  }
}
