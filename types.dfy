/**
 * Entities of the quadratic-voting pallet: accounts, proposals, votes,
 * events and the errors a dispatchable call can fail with.
 */
module Types {

  type AccountId = nat
  type ProposalIndex = nat
  type BlockNumber = nat
  type Balance = nat

  /** Digest of a proposal's text. How it is computed is not part of the model. */
  type Hash = nat

  /** Key of the Aye-vote double map: (proposal, voter). */
  type VoteKey = (ProposalIndex, AccountId)

  /** Who dispatched a call: the privileged root origin or a signed account. */
  datatype Origin = Root | Signed(who: AccountId)

  datatype Vote = Aye | Nay | Abstain

  datatype ProposalStatus = NotStarted | InProgress | Completed

  /** Position of a status in the lifecycle NotStarted -> InProgress -> Completed. */
  function Rank(st: ProposalStatus): nat
  {
    match st
    case NotStarted => 0
    case InProgress => 1
    case Completed => 2
  }

  datatype Proposal = Proposal(
    index: ProposalIndex,
    text: Hash,
    proposer: AccountId,
    endBlock: BlockNumber,
    status: ProposalStatus)

  /** One entry of a batch vote: (proposal, tokens to use, vote). */
  datatype BatchItem = BatchItem(index: ProposalIndex, amount: Balance, vote: Vote)

  datatype Event =
    | VoterRegistered(voter: AccountId, initialBalance: Balance)
    | NewProposalCreated(proposalIndex: ProposalIndex, text: Hash, endBlock: BlockNumber)
    | TokensReserved(who: AccountId, amount: Balance)
    | ProposalStarted(proposalIndex: ProposalIndex)
    | ProposalVoted(proposalIndex: ProposalIndex, vote: Vote)
    | ProposalsVoted(proposals: seq<ProposalIndex>)
    | TokensUnreserved(who: AccountId, amount: Balance, updatedBalance: Balance)
    | VotingEnded(winner: ProposalIndex)

  /**
   * The pallet's error enum, preceded by the origin check's failure and
   * followed by two outcomes that are not pallet errors: the ledger's own
   * refusal to reserve, and a panic of an `expect` on a missing proposal
   * (which aborts the whole call, so no state change survives it).
   * StorageOverflow and NotReservedTokens are declared by the pallet but
   * never raised.
   */
  datatype Error =
    | BadOrigin
    | StorageOverflow
    | NotRegisteredVoter
    | ProposalNotFound
    | ProposalNotActive
    | ProposalAlreadyStarted
    | NotEnoughBalance
    | NotReservedTokens
    | VoterAlreadyVoted
    | NotEnoughReservedTokens
    | InsufficientFee
    | VoterAlreadyRegistered
    | InvalidTokensAmountToReserve
    | AtLeastOneProposalNotRegisteredOrNotActive
    | InvalidTokensAmountToUnreserve
    | SubstractionOverflow
    | SlashFailed
    | AdditionOverflow
    | InsufficientBalance
    | Panicked

  datatype Result<+T> = Ok(value: T) | Err(error: Error)
}
