/**
 * The pallet as the runtime executes it: storage items are fields that
 * each dispatchable updates in place. Every method is proved to leave the
 * storage exactly as the matching function of module Voting describes,
 * and to return that function's outcome; a failing call leaves storage
 * untouched, as the runtime's transactional dispatch guarantees.
 */
module PalletImpl {
  import opened Types
  import opened Arith
  import opened Balances
  import opened Tally
  import Voting

  class Pallet {
    /** The configured number of blocks a proposal stays open for votes. */
    const votingPeriod: BlockNumber

    var voters: set<AccountId>
    var proposals: map<ProposalIndex, Proposal>
    var proposalCount: nat
    var ayeVotes: Votes
    var ledger: Book
    var events: seq<Event>

    /** The storage as a value. */
    function Snapshot(): Voting.State
      reads this
    {
      Voting.State(voters, proposals, proposalCount, ayeVotes, ledger, events)
    }

    ghost predicate Valid()
      reads this
    {
      Voting.Valid(Snapshot())
    }

    /** Empty pallet storage over the ledger genesis configured. */
    constructor(votingPeriod: BlockNumber, ledger: Book)
      ensures Valid()
      ensures Snapshot() == Voting.Genesis(ledger) && this.votingPeriod == votingPeriod
    {
      this.votingPeriod := votingPeriod;
      voters := {};
      proposals := map[];
      proposalCount := 0;
      ayeVotes := map[];
      this.ledger := ledger;
      events := [];
    }

    method RegisterVoter(origin: Origin, voter: AccountId, fee: Balance) returns (r: Result<()>)
      requires Valid()
      modifies this
      ensures Valid()
      ensures r == Voting.Outcome(Voting.RegisterVoter(old(Snapshot()), origin, voter, fee))
      ensures Snapshot() == Voting.Commit(old(Snapshot()), Voting.RegisterVoter(old(Snapshot()), origin, voter, fee))
    {
      if !origin.Root? {
        return Err(BadOrigin);
      }
      if voter in voters {
        return Err(VoterAlreadyRegistered);
      }
      if fee == 0 {
        return Err(InsufficientFee);
      }
      var initialBalance := CheckedSub(Voting.ENDOWMENT, fee);
      if initialBalance.Err? {
        return Err(initialBalance.error);
      }
      ledger := ledger.SetFree(voter, initialBalance.value);
      voters := voters + {voter};
      events := events + [VoterRegistered(voter, initialBalance.value)];
      return Ok(());
    }

    method CreateProposal(origin: Origin, text: Hash, now: BlockNumber) returns (r: Result<()>)
      requires Valid()
      modifies this
      ensures Valid()
      ensures r == Voting.Outcome(Voting.CreateProposal(old(Snapshot()), origin, text, now, votingPeriod))
      ensures Snapshot() == Voting.Commit(old(Snapshot()), Voting.CreateProposal(old(Snapshot()), origin, text, now, votingPeriod))
    {
      if !origin.Signed? {
        return Err(BadOrigin);
      }
      var proposer := origin.who;
      if proposer !in voters {
        return Err(NotRegisteredVoter);
      }
      var index := proposalCount + 1;
      var endBlock := now + votingPeriod;
      if index !in proposals {
        proposalCount := proposalCount + 1;
      }
      proposals := proposals[index := Proposal(index, text, proposer, endBlock, NotStarted)];
      events := events + [NewProposalCreated(index, text, endBlock)];
      return Ok(());
    }

    method StartProposal(origin: Origin, index: ProposalIndex, fee: Balance) returns (r: Result<()>)
      requires Valid()
      modifies this
      ensures Valid()
      ensures r == Voting.Outcome(Voting.StartProposal(old(Snapshot()), origin, index, fee))
      ensures Snapshot() == Voting.Commit(old(Snapshot()), Voting.StartProposal(old(Snapshot()), origin, index, fee))
    {
      if !origin.Signed? {
        return Err(BadOrigin);
      }
      var who := origin.who;
      if who !in voters {
        return Err(NotRegisteredVoter);
      }
      if index !in proposals {
        return Err(ProposalNotFound);
      }
      var balance := ledger.Total(who) - ledger.Reserved(who);
      if balance < fee {
        return Err(NotEnoughBalance);
      }
      if proposals[index].status != NotStarted {
        return Err(ProposalAlreadyStarted);
      }
      if fee == 0 {
        return Err(InsufficientFee);
      }
      var p := proposals[index];
      proposals := proposals[index := Proposal(index, p.text, p.proposer, p.endBlock, InProgress)];
      ledger := ledger.SetFree(who, balance - fee);
      events := events + [ProposalStarted(index)];
      return Ok(());
    }

    method ReserveTokens(origin: Origin, amount: Balance) returns (r: Result<()>)
      requires Valid()
      modifies this
      ensures Valid()
      ensures r == Voting.Outcome(Voting.ReserveTokens(old(Snapshot()), origin, amount))
      ensures Snapshot() == Voting.Commit(old(Snapshot()), Voting.ReserveTokens(old(Snapshot()), origin, amount))
    {
      if !origin.Signed? {
        return Err(BadOrigin);
      }
      var who := origin.who;
      if who !in voters {
        return Err(NotRegisteredVoter);
      }
      if amount == 0 {
        return Err(InvalidTokensAmountToReserve);
      }
      if ledger.Total(who) - ledger.Reserved(who) < amount {
        return Err(NotEnoughBalance);
      }
      match ledger.Reserve(who, amount) {
        case Err(e) => return Err(e);
        case Ok(reserved) => ledger := reserved;
      }
      events := events + [TokensReserved(who, amount)];
      return Ok(());
    }

    method UnreserveTokens(origin: Origin, amount: Balance) returns (r: Result<()>)
      requires Valid()
      modifies this
      ensures Valid()
      ensures r == Voting.Outcome(Voting.UnreserveTokens(old(Snapshot()), origin, amount))
      ensures Snapshot() == Voting.Commit(old(Snapshot()), Voting.UnreserveTokens(old(Snapshot()), origin, amount))
    {
      if !origin.Signed? {
        return Err(BadOrigin);
      }
      var who := origin.who;
      if who !in voters {
        return Err(NotRegisteredVoter);
      }
      if amount == 0 {
        return Err(InvalidTokensAmountToUnreserve);
      }
      if ledger.Reserved(who) < amount {
        return Err(NotEnoughReservedTokens);
      }
      var unreserved := ledger.Unreserve(who, amount);
      match CheckedDiv(amount, 2) {
        case Err(e) => return Err(e);
        case Ok(penalty) => ledger := unreserved.Slash(who, penalty);
      }
      var updatedBalance := ledger.Total(who) - ledger.Reserved(who);
      events := events + [TokensUnreserved(who, amount, updatedBalance)];
      return Ok(());
    }

    /** `update_proposal_status_to_completed`, which panics on a missing proposal. */
    method UpdateProposalStatusToCompleted(index: ProposalIndex) returns (r: Result<()>)
      requires Valid()
      modifies this
      ensures Valid()
      ensures r == Voting.Outcome(Voting.UpdateProposalStatusToCompleted(old(Snapshot()), index))
      ensures Snapshot() == Voting.Commit(old(Snapshot()), Voting.UpdateProposalStatusToCompleted(old(Snapshot()), index))
    {
      if index !in proposals {
        return Err(Panicked);
      }
      var p := proposals[index];
      proposals := proposals[index := Proposal(index, p.text, p.proposer, p.endBlock, Completed)];
      return Ok(());
    }

    /**
     * `vote_proposal`; `order` is the order in which storage iterates the
     * proposals when the winner is computed.
     */
    method VoteProposal(origin: Origin, index: ProposalIndex, vote: Vote,
                        now: BlockNumber, order: seq<ProposalIndex>) returns (r: Result<()>)
      requires Valid()
      modifies this
      ensures Valid()
      ensures r == Voting.Outcome(Voting.VoteProposal(old(Snapshot()), origin, index, vote, now, order))
      ensures Snapshot() == Voting.Commit(old(Snapshot()), Voting.VoteProposal(old(Snapshot()), origin, index, vote, now, order))
    {
      if !origin.Signed? {
        return Err(BadOrigin);
      }
      var who := origin.who;
      if who !in voters {
        return Err(NotRegisteredVoter);
      }
      if index !in proposals {
        return Err(ProposalNotFound);
      }
      if !Voting.IsProposalActive(Snapshot(), index) {
        return Err(ProposalNotActive);
      }
      if proposals[index].endBlock <= now {
        var completed := UpdateProposalStatusToCompleted(index);
        var winner := GetWinner(ayeVotes, order);
        events := events + [VotingEnded(winner)];
        return Ok(());
      }
      var reservedTokens := ledger.Reserved(who);
      if reservedTokens == 0 {
        return Err(NotEnoughReservedTokens);
      }
      if vote.Aye? {
        if (index, who) in ayeVotes {
          return Err(VoterAlreadyVoted);
        }
        var weight := WeightOf(ayeVotes, (index, who)) + Isqrt(reservedTokens);
        ayeVotes := ayeVotes[(index, who) := weight];
        ledger := ledger.SetFree(who, ledger.Total(who) - ledger.Reserved(who));
        events := events + [ProposalVoted(index, vote)];
      }
      return Ok(());
    }

    /**
     * `vote_multiple_proposals`. The loop collects its writes and stores
     * them once it has finished, so an overflow part-way leaves storage as
     * it was, as the runtime's rollback of a failed call does.
     */
    method VoteMultipleProposals(origin: Origin, items: seq<BatchItem>,
                                 now: BlockNumber, order: seq<ProposalIndex>) returns (r: Result<()>)
      requires Valid()
      modifies this
      ensures Valid()
      ensures r == Voting.Outcome(Voting.VoteMultipleProposals(old(Snapshot()), origin, items, now, order))
      ensures Snapshot() == Voting.Commit(old(Snapshot()), Voting.VoteMultipleProposals(old(Snapshot()), origin, items, now, order))
    {
      if !origin.Signed? {
        return Err(BadOrigin);
      }
      var who := origin.who;
      if who !in voters {
        return Err(NotRegisteredVoter);
      }
      if !Voting.AllRegisteredAndActive(Snapshot(), items) {
        return Err(AtLeastOneProposalNotRegisteredOrNotActive);
      }
      if ledger.Reserved(who) < Voting.TotalTokens(items) {
        return Err(NotEnoughReservedTokens);
      }
      if Voting.HasVotedAny(Snapshot(), who, items) {
        return Err(VoterAlreadyVoted);
      }
      if !Voting.AllStillLive(Snapshot(), items, now) {
        var winner := GetWinner(ayeVotes, order);
        var completed := UpdateProposalStatusToCompleted(winner);
        if completed.Err? {
          return completed;
        }
        events := events + [VotingEnded(winner)];
        return Ok(());
      }

      var all := Voting.Indices(items);
      var aye: Votes, book: Book, log: seq<Event> := ayeVotes, ledger, events;
      var i := 0;
      while i < |items|
        invariant 0 <= i <= |items|
        invariant Snapshot() == old(Snapshot())
        invariant Voting.ApplyVotes(Snapshot().(ayeVotes := aye, ledger := book, events := log), who, items[i..], all)
          == Voting.ApplyVotes(old(Snapshot()), who, items, all)
      {
        var item := items[i];
        assert items[i..][0] == item && items[i..][1..] == items[i + 1..];
        if item.vote.Aye? {
          var key := (item.index, who);
          var weight := CheckedAdd(WeightOf(aye, key), Isqrt(item.amount));
          if weight.Err? {
            return Err(weight.error);
          }
          aye := aye[key := weight.value];
          book := book.SetFree(who, book.Total(who) - book.Reserved(who));
          log := log + [ProposalsVoted(all)];
        }
        i := i + 1;
      }
      assert items[|items|..] == [];
      Voting.AcceptedBatch(old(Snapshot()), who, items);
      ayeVotes, ledger, events := aye, book, log;
      return Ok(());
    }
  }
}
