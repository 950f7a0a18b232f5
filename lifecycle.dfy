/**
 * The pallet over a sequence of extrinsics: any call from any origin, in
 * any block, keeps the storage invariants, never undoes what earlier calls
 * did, and announces as winner the proposal with the largest Aye total.
 */
module Lifecycle {
  import opened Types
  import opened Balances
  import opened Tally
  import opened Voting

  /** The pallet's dispatchable calls with their arguments. */
  datatype Call =
    | Register(voter: AccountId, fee: Balance)
    | Create(text: Hash)
    | Start(index: ProposalIndex, fee: Balance)
    | Reserve(amount: Balance)
    | Unreserve(amount: Balance)
    | VoteOne(index: ProposalIndex, vote: Vote)
    | VoteMany(items: seq<BatchItem>)

  /**
   * A call as the runtime applies it: its origin, the block it is included
   * in, and the order in which storage iterates the proposals at that point.
   */
  datatype Extrinsic = Extrinsic(origin: Origin, call: Call, now: BlockNumber, order: seq<ProposalIndex>)

  /** The outcome of one extrinsic, with `period` the configured voting period. */
  ghost function Dispatch(s: State, x: Extrinsic, period: BlockNumber): Result<State>
  {
    match x.call
    case Register(voter, fee) => RegisterVoter(s, x.origin, voter, fee)
    case Create(text) => CreateProposal(s, x.origin, text, x.now, period)
    case Start(index, fee) => StartProposal(s, x.origin, index, fee)
    case Reserve(amount) => ReserveTokens(s, x.origin, amount)
    case Unreserve(amount) => UnreserveTokens(s, x.origin, amount)
    case VoteOne(index, vote) => VoteProposal(s, x.origin, index, vote, x.now, x.order)
    case VoteMany(items) => VoteMultipleProposals(s, x.origin, items, x.now, x.order)
  }

  /** The state after applying `xs` in order, each failed call leaving the state as it was. */
  ghost function Run(s: State, xs: seq<Extrinsic>, period: BlockNumber): State
    decreases |xs|
  {
    if xs == [] then s else Run(Commit(s, Dispatch(s, xs[0], period)), xs[1..], period)
  }

  lemma DispatchKeepsInvariants(s: State, x: Extrinsic, period: BlockNumber)
    requires Valid(s)
    ensures Valid(Commit(s, Dispatch(s, x, period)))
    ensures Evolves(s, Commit(s, Dispatch(s, x, period)))
  {
  }

  lemma EvolvesTransitive(s: State, t: State, u: State)
    requires Evolves(s, t) && Evolves(t, u)
    ensures Evolves(s, u)
  {
  }

  /** Every run from a valid state ends in a valid state that extends the start. */
  lemma {:induction false} RunKeepsInvariants(s: State, xs: seq<Extrinsic>, period: BlockNumber)
    requires Valid(s)
    ensures Valid(Run(s, xs, period)) && Evolves(s, Run(s, xs, period))
    decreases |xs|
  {
    if xs != [] {
      var t := Commit(s, Dispatch(s, xs[0], period));
      DispatchKeepsInvariants(s, xs[0], period);
      RunKeepsInvariants(t, xs[1..], period);
      EvolvesTransitive(s, t, Run(t, xs[1..], period));
    }
  }

  /** From genesis, proposal indices are 1..count and every Aye record is well placed. */
  lemma ReachableIsValid(ledger: Book, xs: seq<Extrinsic>, period: BlockNumber)
    ensures Valid(Run(Genesis(ledger), xs, period))
  {
    GenesisValid(ledger);
    RunKeepsInvariants(Genesis(ledger), xs, period);
  }

  /** A completed proposal stays completed, with the same text, proposer and end block. */
  lemma CompletedIsFinal(s: State, xs: seq<Extrinsic>, period: BlockNumber, i: ProposalIndex)
    requires Valid(s) && i in s.proposals && s.proposals[i].status == Completed
    ensures var t := Run(s, xs, period);
      i in t.proposals && t.proposals[i] == s.proposals[i]
  {
    RunKeepsInvariants(s, xs, period);
  }

  /** An Aye record is never changed or removed by later calls. */
  lemma VoteIsFinal(s: State, xs: seq<Extrinsic>, period: BlockNumber, k: VoteKey)
    requires Valid(s) && k in s.ayeVotes
    ensures k in Run(s, xs, period).ayeVotes && Run(s, xs, period).ayeVotes[k] == s.ayeVotes[k]
  {
    RunKeepsInvariants(s, xs, period);
  }

  // ---------------------------------------------------------------------
  // The winner

  /** `order` lists every proposal of `s` exactly once, as storage iteration does. */
  ghost predicate Enumerates(order: seq<ProposalIndex>, s: State)
  {
    && (forall j | 0 <= j < |order| :: order[j] in s.proposals)
    && (forall i | i in s.proposals :: i in order)
    && (forall j, k | 0 <= j < k < |order| :: order[j] != order[k])
  }

  /**
   * Over the whole proposal table, the announced winner is 0 exactly when
   * no proposal holds any Aye weight, and otherwise a proposal whose total
   * is positive and at least every other proposal's total.
   */
  lemma WinnerLeads(s: State, order: seq<ProposalIndex>)
    requires Valid(s) && Enumerates(order, s)
    ensures var w := WinnerOf(s.ayeVotes, order);
      && (w == 0 <==> forall i | i in s.proposals :: TotalOf(s.ayeVotes, i) == 0)
      && (w != 0 ==>
          && w in s.proposals && TotalOf(s.ayeVotes, w) > 0
          && forall i | i in s.proposals :: TotalOf(s.ayeVotes, i) <= TotalOf(s.ayeVotes, w))
  {
    var w := WinnerOf(s.ayeVotes, order);
    assert 0 !in order;
    WinnerZeroIffNoVotes(s.ayeVotes, order);
    WinnerOfIsWinner(s.ayeVotes, order);
    if w != 0 {
      var k :| 0 <= k < |order| && order[k] == w && TotalOf(s.ayeVotes, w) > 0 && LeadsAt(s.ayeVotes, order, k);
      forall i | i in s.proposals ensures TotalOf(s.ayeVotes, i) <= TotalOf(s.ayeVotes, w) {
        var j :| 0 <= j < |order| && order[j] == i;
      }
    } else {
      forall i | i in s.proposals ensures TotalOf(s.ayeVotes, i) == 0 {
        var j :| 0 <= j < |order| && order[j] == i;
      }
    }
  }

  /**
   * A batch that passes every check after a listed proposal has ended
   * fails with a panic exactly when no proposal holds any Aye weight:
   * the winner is then 0, which is not a proposal.
   */
  lemma BatchExpiryPanicsIffNoVotes(s: State, origin: Origin, items: seq<BatchItem>,
                                    now: BlockNumber, order: seq<ProposalIndex>)
    requires Valid(s) && Enumerates(order, s)
    requires origin.Signed? && BatchAccepted(s, origin.who, items) && !AllStillLive(s, items, now)
    ensures VoteMultipleProposals(s, origin, items, now, order) == Err(Panicked)
      <==> forall i | i in s.proposals :: TotalOf(s.ayeVotes, i) == 0
  {
    WinnerLeads(s, order);
  }
}
