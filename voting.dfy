/**
 * The voting pallet as a state machine over its storage: registered
 * voters, the counted map of proposals, the Aye-vote double map and the
 * host ledger, plus the events deposited so far. Each dispatchable call is
 * a function from the state before the call to the state after it, or to
 * the error it fails with; a failed call changes nothing (see Commit).
 * The clock (`now`), the configured voting period and the order in which
 * storage iterates the proposals are inputs of the calls that read them.
 */
module Voting {
  import opened Types
  import opened Arith
  import opened Balances
  import opened Tally

  /** Free balance a voter is endowed with, before the registration fee. */
  const ENDOWMENT: Balance := 100

  datatype State = State(
    voters: set<AccountId>,
    proposals: map<ProposalIndex, Proposal>,
    proposalCount: nat,
    ayeVotes: Votes,
    ledger: Book,
    events: seq<Event>)

  /** No voters, proposals or votes; the ledger holds whatever genesis gave it. */
  function Genesis(ledger: Book): State
  {
    State({}, map[], 0, map[], ledger, [])
  }

  /** The state a call leaves behind: its result on success, the old state on failure. */
  function Commit(s: State, r: Result<State>): State
  {
    if r.Ok? then r.value else s
  }

  /** What the call returns to its caller. */
  function Outcome(r: Result<State>): Result<()>
  {
    if r.Ok? then Ok(()) else Err(r.error)
  }

  // ---------------------------------------------------------------------
  // Invariants kept by every call

  /**
   * Proposal indices are exactly 1..proposalCount and each proposal
   * records its own index; every Aye record belongs to a registered voter
   * and to a proposal that has been started.
   */
  ghost predicate Valid(s: State)
  {
    && (forall i :: i in s.proposals <==> 1 <= i <= s.proposalCount)
    && (forall i | i in s.proposals :: s.proposals[i].index == i)
    && (forall k | k in s.ayeVotes ::
          k.0 in s.proposals && k.1 in s.voters && s.proposals[k.0].status != NotStarted)
  }

  /** A proposal keeps its identity, text, proposer and end block; its status only advances. */
  ghost predicate Persists(p: Proposal, q: Proposal)
  {
    && q.index == p.index && q.text == p.text && q.proposer == p.proposer
    && q.endBlock == p.endBlock && Rank(p.status) <= Rank(q.status)
  }

  /**
   * What no call undoes: registrations, proposals, and the events already
   * deposited. An Aye record, once written, is final: no call changes or
   * removes it.
   */
  ghost predicate Evolves(s: State, t: State)
  {
    && s.voters <= t.voters
    && s.proposalCount <= t.proposalCount
    && (forall i | i in s.proposals :: i in t.proposals && Persists(s.proposals[i], t.proposals[i]))
    && (forall k | k in s.ayeVotes :: k in t.ayeVotes && t.ayeVotes[k] == s.ayeVotes[k])
    && s.events <= t.events
  }

  lemma GenesisValid(ledger: Book)
    ensures Valid(Genesis(ledger))
  {
  }

  // ---------------------------------------------------------------------
  // Read-only queries

  function IsVoterRegistered(s: State, who: AccountId): bool
  {
    who in s.voters
  }

  function IsProposalRegistered(s: State, index: ProposalIndex): bool
  {
    index in s.proposals
  }

  function IsProposalActive(s: State, index: ProposalIndex): (r: bool)
    ensures r <==> index in s.proposals && s.proposals[index].status == InProgress
  {
    if index in s.proposals then
      s.proposals[index].status == InProgress && IsProposalRegistered(s, index)
    else
      false
  }

  /** The caller has an Aye record on the proposal, even one of weight 0. */
  function VoterHasVoted(s: State, index: ProposalIndex, who: AccountId): bool
  {
    (index, who) in s.ayeVotes
  }

  function GetAyeVotesBalance(s: State, index: ProposalIndex, who: AccountId): Balance
  {
    WeightOf(s.ayeVotes, (index, who))
  }

  /** Total balance minus reserved balance: the spendable free balance. */
  function GetVoterBalance(s: State, who: AccountId): (b: Balance)
    ensures b == s.ledger.Free(who)
  {
    s.ledger.Total(who) - s.ledger.Reserved(who)
  }

  /** Reads a status; callers have already checked that the proposal exists. */
  function GetProposalStatus(s: State, index: ProposalIndex): ProposalStatus
    requires index in s.proposals
  {
    s.proposals[index].status
  }

  /** Reads an end block; callers have already checked that the proposal exists. */
  function GetProposalEndBlock(s: State, index: ProposalIndex): BlockNumber
    requires index in s.proposals
  {
    s.proposals[index].endBlock
  }

  /**
   * `update_proposal_status_to_completed`: marks the proposal Completed.
   * Its `expect` panics when the proposal does not exist.
   */
  function UpdateProposalStatusToCompleted(s: State, index: ProposalIndex): (r: Result<State>)
    ensures r.Ok? <==> index in s.proposals
    ensures r.Err? ==> r.error == Panicked
    ensures r.Ok? ==>
      && r.value.proposals.Keys == s.proposals.Keys
      && r.value.proposals[index] == s.proposals[index].(index := index, status := Completed)
      && (forall j | j in s.proposals && j != index :: r.value.proposals[j] == s.proposals[j])
      && r.value.(proposals := s.proposals) == s
  {
    if index in s.proposals then
      var p := s.proposals[index];
      Ok(s.(proposals := s.proposals[index := Proposal(index, p.text, p.proposer, p.endBlock, Completed)]))
    else
      Err(Panicked)
  }

  // ---------------------------------------------------------------------
  // Dispatchable calls

  /**
   * `register_voter` (root only): endows a new voter with 100 - fee free
   * tokens, overwriting whatever free balance it had.
   */
  function RegisterVoter(s: State, origin: Origin, voter: AccountId, fee: Balance): (r: Result<State>)
    ensures r.Ok? <==> origin.Root? && voter !in s.voters && 0 < fee <= ENDOWMENT
    ensures !origin.Root? ==> r == Err(BadOrigin)
    ensures origin.Root? && voter in s.voters ==> r == Err(VoterAlreadyRegistered)
    ensures origin.Root? && voter !in s.voters && fee == 0 ==> r == Err(InsufficientFee)
    ensures origin.Root? && voter !in s.voters && fee > ENDOWMENT ==> r == Err(SubstractionOverflow)
    ensures r.Ok? ==>
      && r.value.voters == s.voters + {voter}
      && r.value.ledger.Free(voter) == ENDOWMENT - fee
      && r.value.ledger.Reserved(voter) == s.ledger.Reserved(voter)
      && s.ledger.SameExcept(r.value.ledger, voter)
      && r.value.events == s.events + [VoterRegistered(voter, ENDOWMENT - fee)]
      && r.value.(voters := s.voters, ledger := s.ledger, events := s.events) == s
    ensures r.Ok? && Valid(s) ==> Valid(r.value) && Evolves(s, r.value)
  {
    if !origin.Root? then Err(BadOrigin)
    else if IsVoterRegistered(s, voter) then Err(VoterAlreadyRegistered)
    else if fee == 0 then Err(InsufficientFee)
    else
      match CheckedSub(ENDOWMENT, fee)
      case Err(e) => Err(e)
      case Ok(initialBalance) =>
        Ok(s.(ledger := s.ledger.SetFree(voter, initialBalance),
              voters := s.voters + {voter},
              events := s.events + [VoterRegistered(voter, initialBalance)]))
  }

  /**
   * `create_proposal`: a registered voter files a proposal under index
   * count + 1, not yet started, whose voting ends `period` blocks from now.
   * The counted map only grows its counter when the key is new.
   */
  function CreateProposal(s: State, origin: Origin, text: Hash, now: BlockNumber, period: BlockNumber)
    : (r: Result<State>)
    ensures r.Ok? <==> origin.Signed? && origin.who in s.voters
    ensures !origin.Signed? ==> r == Err(BadOrigin)
    ensures origin.Signed? && origin.who !in s.voters ==> r == Err(NotRegisteredVoter)
    ensures r.Ok? && Valid(s) ==>
      var i := s.proposalCount + 1;
      && i !in s.proposals
      && r.value.proposals.Keys == s.proposals.Keys + {i}
      && (forall j | j in s.proposals :: r.value.proposals[j] == s.proposals[j])
      && r.value.proposals[i] == Proposal(i, text, origin.who, now + period, NotStarted)
      && r.value.proposalCount == i
      && r.value.events == s.events + [NewProposalCreated(i, text, now + period)]
      && r.value.(proposals := s.proposals, proposalCount := s.proposalCount, events := s.events) == s
    ensures r.Ok? && Valid(s) ==> Valid(r.value) && Evolves(s, r.value)
  {
    if !origin.Signed? then Err(BadOrigin)
    else
      var proposer := origin.who;
      if !IsVoterRegistered(s, proposer) then Err(NotRegisteredVoter)
      else
        var index := s.proposalCount + 1;
        var endBlock := now + period;
        var proposal := Proposal(index, text, proposer, endBlock, NotStarted);
        var count := if index in s.proposals then s.proposalCount else s.proposalCount + 1;
        Ok(s.(proposals := s.proposals[index := proposal],
              proposalCount := count,
              events := s.events + [NewProposalCreated(index, text, endBlock)]))
  }

  /**
   * `start_proposal`: any registered voter pays `fee` out of its free
   * balance to move a NotStarted proposal to InProgress. The fee is burned.
   * The balance is checked before the status and the fee's positivity.
   */
  function StartProposal(s: State, origin: Origin, index: ProposalIndex, fee: Balance): (r: Result<State>)
    ensures r.Ok? <==>
      && origin.Signed? && origin.who in s.voters && index in s.proposals
      && s.proposals[index].status == NotStarted && 0 < fee <= s.ledger.Free(origin.who)
    ensures !origin.Signed? ==> r == Err(BadOrigin)
    ensures origin.Signed? && origin.who !in s.voters ==> r == Err(NotRegisteredVoter)
    ensures origin.Signed? && origin.who in s.voters && index !in s.proposals ==> r == Err(ProposalNotFound)
    ensures (origin.Signed? && origin.who in s.voters && index in s.proposals && fee > s.ledger.Free(origin.who))
      ==> r == Err(NotEnoughBalance)
    ensures (origin.Signed? && origin.who in s.voters && index in s.proposals && fee <= s.ledger.Free(origin.who)
      && s.proposals[index].status != NotStarted) ==> r == Err(ProposalAlreadyStarted)
    ensures (origin.Signed? && origin.who in s.voters && index in s.proposals
      && s.proposals[index].status == NotStarted && fee == 0) ==> r == Err(InsufficientFee)
    ensures r.Ok? ==>
      var who := origin.who;
      && r.value.proposals.Keys == s.proposals.Keys
      && r.value.proposals[index] == s.proposals[index].(index := index, status := InProgress)
      && (forall j | j in s.proposals && j != index :: r.value.proposals[j] == s.proposals[j])
      && r.value.ledger.Free(who) + fee == s.ledger.Free(who)
      && r.value.ledger.Total(who) + fee == s.ledger.Total(who)
      && s.ledger.SameExcept(r.value.ledger, who)
      && r.value.events == s.events + [ProposalStarted(index)]
      && r.value.(proposals := s.proposals, ledger := s.ledger, events := s.events) == s
    ensures r.Ok? && Valid(s) ==> Valid(r.value) && Evolves(s, r.value)
  {
    if !origin.Signed? then Err(BadOrigin)
    else
      var who := origin.who;
      if !IsVoterRegistered(s, who) then Err(NotRegisteredVoter)
      else if index !in s.proposals then Err(ProposalNotFound)
      else
        var balance := GetVoterBalance(s, who);
        if balance < fee then Err(NotEnoughBalance)
        else if GetProposalStatus(s, index) != NotStarted then Err(ProposalAlreadyStarted)
        else if fee == 0 then Err(InsufficientFee)
        else
          var p := s.proposals[index];
          var started := Proposal(index, p.text, p.proposer, p.endBlock, InProgress);
          Ok(s.(proposals := s.proposals[index := started],
                ledger := s.ledger.SetFree(who, balance - fee),
                events := s.events + [ProposalStarted(index)]))
  }

  /** `reserve_tokens`: a registered voter moves `amount` of its free balance to reserved. */
  function ReserveTokens(s: State, origin: Origin, amount: Balance): (r: Result<State>)
    ensures r.Ok? <==> origin.Signed? && origin.who in s.voters && 0 < amount <= s.ledger.Free(origin.who)
    ensures !origin.Signed? ==> r == Err(BadOrigin)
    ensures origin.Signed? && origin.who !in s.voters ==> r == Err(NotRegisteredVoter)
    ensures origin.Signed? && origin.who in s.voters && amount == 0 ==> r == Err(InvalidTokensAmountToReserve)
    ensures (origin.Signed? && origin.who in s.voters && amount > s.ledger.Free(origin.who))
      ==> r == Err(NotEnoughBalance)
    ensures r.Ok? ==>
      var who := origin.who;
      && r.value.ledger.Free(who) + amount == s.ledger.Free(who)
      && r.value.ledger.Reserved(who) == s.ledger.Reserved(who) + amount
      && r.value.ledger.Total(who) == s.ledger.Total(who)
      && s.ledger.SameExcept(r.value.ledger, who)
      && r.value.events == s.events + [TokensReserved(who, amount)]
      && r.value.(ledger := s.ledger, events := s.events) == s
    ensures r.Ok? && Valid(s) ==> Valid(r.value) && Evolves(s, r.value)
  {
    if !origin.Signed? then Err(BadOrigin)
    else
      var who := origin.who;
      if !IsVoterRegistered(s, who) then Err(NotRegisteredVoter)
      else if amount == 0 then Err(InvalidTokensAmountToReserve)
      else if GetVoterBalance(s, who) < amount then Err(NotEnoughBalance)
      else
        match s.ledger.Reserve(who, amount)
        case Err(e) => Err(e)
        case Ok(ledger) =>
          Ok(s.(ledger := ledger, events := s.events + [TokensReserved(who, amount)]))
  }

  /**
   * `unreserve_tokens`: a registered voter takes `amount` back from
   * reserved and pays half of it (rounded down) as a penalty that is
   * slashed, i.e. burned. The penalty always comes out of the free balance
   * the unreserve has just refilled.
   */
  function UnreserveTokens(s: State, origin: Origin, amount: Balance): (r: Result<State>)
    ensures r.Ok? <==> origin.Signed? && origin.who in s.voters && 0 < amount <= s.ledger.Reserved(origin.who)
    ensures !origin.Signed? ==> r == Err(BadOrigin)
    ensures origin.Signed? && origin.who !in s.voters ==> r == Err(NotRegisteredVoter)
    ensures origin.Signed? && origin.who in s.voters && amount == 0 ==> r == Err(InvalidTokensAmountToUnreserve)
    ensures (origin.Signed? && origin.who in s.voters && amount > s.ledger.Reserved(origin.who))
      ==> r == Err(NotEnoughReservedTokens)
    ensures r.Ok? ==>
      var who := origin.who;
      && r.value.ledger.Reserved(who) + amount == s.ledger.Reserved(who)
      && r.value.ledger.Free(who) == s.ledger.Free(who) + amount - amount / 2
      && r.value.ledger.Total(who) + amount / 2 == s.ledger.Total(who)
      && s.ledger.SameExcept(r.value.ledger, who)
      && r.value.events == s.events + [TokensUnreserved(who, amount, r.value.ledger.Free(who))]
      && r.value.(ledger := s.ledger, events := s.events) == s
    ensures r.Ok? && Valid(s) ==> Valid(r.value) && Evolves(s, r.value)
  {
    if !origin.Signed? then Err(BadOrigin)
    else
      var who := origin.who;
      if !IsVoterRegistered(s, who) then Err(NotRegisteredVoter)
      else if amount == 0 then Err(InvalidTokensAmountToUnreserve)
      else if s.ledger.Reserved(who) < amount then Err(NotEnoughReservedTokens)
      else
        var unreserved := s.ledger.Unreserve(who, amount);
        match CheckedDiv(amount, 2)
        case Err(e) => Err(e)
        case Ok(penalty) =>
          var slashed := s.(ledger := unreserved.Slash(who, penalty));
          var updatedBalance := GetVoterBalance(slashed, who);
          Ok(slashed.(events := s.events + [TokensUnreserved(who, amount, updatedBalance)]))
  }

  /**
   * `vote_proposal`. Once the proposal's end block has been reached the
   * call only completes that proposal and announces the current winner,
   * whatever the caller holds. Before that, an Aye from a voter with
   * reserved tokens and no record on the proposal stores the square root
   * of all its reserved tokens; Nay and Abstain are accepted and dropped.
   * Voting never spends tokens: the free balance is rewritten with its own
   * value.
   */
  ghost function VoteProposal(s: State, origin: Origin, index: ProposalIndex, vote: Vote,
                              now: BlockNumber, order: seq<ProposalIndex>): (r: Result<State>)
    ensures r.Ok? ==> s.ledger.SameBalances(r.value.ledger)
    ensures !origin.Signed? ==> r == Err(BadOrigin)
    ensures origin.Signed? && origin.who !in s.voters ==> r == Err(NotRegisteredVoter)
    ensures origin.Signed? && origin.who in s.voters && index !in s.proposals ==> r == Err(ProposalNotFound)
    ensures (origin.Signed? && origin.who in s.voters && index in s.proposals
      && s.proposals[index].status != InProgress) ==> r == Err(ProposalNotActive)
    ensures (origin.Signed? && origin.who in s.voters && IsProposalActive(s, index)
      && s.proposals[index].endBlock <= now) ==>
      && r.Ok?
      && r.value.proposals.Keys == s.proposals.Keys
      && r.value.proposals[index] == s.proposals[index].(index := index, status := Completed)
      && (forall j | j in s.proposals && j != index :: r.value.proposals[j] == s.proposals[j])
      && r.value.events == s.events + [VotingEnded(WinnerOf(s.ayeVotes, order))]
      && r.value.(proposals := s.proposals, events := s.events) == s
    ensures (origin.Signed? && origin.who in s.voters && IsProposalActive(s, index)
      && now < s.proposals[index].endBlock && s.ledger.Reserved(origin.who) == 0)
      ==> r == Err(NotEnoughReservedTokens)
    ensures (origin.Signed? && origin.who in s.voters && IsProposalActive(s, index)
      && now < s.proposals[index].endBlock && s.ledger.Reserved(origin.who) > 0 && vote == Aye)
      ==> if (index, origin.who) in s.ayeVotes then r == Err(VoterAlreadyVoted)
          else
            && r.Ok?
            && r.value.ayeVotes == s.ayeVotes[(index, origin.who) := Isqrt(s.ledger.Reserved(origin.who))]
            && r.value.events == s.events + [ProposalVoted(index, Aye)]
            && r.value.(ayeVotes := s.ayeVotes, ledger := s.ledger, events := s.events) == s
    ensures (origin.Signed? && origin.who in s.voters && IsProposalActive(s, index)
      && now < s.proposals[index].endBlock && s.ledger.Reserved(origin.who) > 0 && vote != Aye)
      ==> r == Ok(s)
    ensures r.Ok? && Valid(s) ==> Valid(r.value) && Evolves(s, r.value)
  {
    if !origin.Signed? then Err(BadOrigin)
    else
      var who := origin.who;
      if !IsVoterRegistered(s, who) then Err(NotRegisteredVoter)
      else if !IsProposalRegistered(s, index) then Err(ProposalNotFound)
      else if !IsProposalActive(s, index) then Err(ProposalNotActive)
      else if GetProposalEndBlock(s, index) <= now then
        match UpdateProposalStatusToCompleted(s, index)
        case Err(e) => Err(e)
        case Ok(completed) =>
          var winner := WinnerOf(completed.ayeVotes, order);
          Ok(completed.(events := s.events + [VotingEnded(winner)]))
      else
        var reservedTokens := s.ledger.Reserved(who);
        if reservedTokens == 0 then Err(NotEnoughReservedTokens)
        else if vote.Aye? then
          if VoterHasVoted(s, index, who) then Err(VoterAlreadyVoted)
          else
            var weight := GetAyeVotesBalance(s, index, who) + Isqrt(reservedTokens);
            var voted := s.(ayeVotes := s.ayeVotes[(index, who) := weight]);
            Ok(voted.(ledger := s.ledger.SetFree(who, GetVoterBalance(voted, who)),
                      events := s.events + [ProposalVoted(index, vote)]))
        else
          Ok(s)
  }

  // ---------------------------------------------------------------------
  // Batch voting

  /** Every listed proposal exists and is in progress. */
  function AllRegisteredAndActive(s: State, items: seq<BatchItem>): bool
  {
    forall j | 0 <= j < |items| ::
      IsProposalRegistered(s, items[j].index) && IsProposalActive(s, items[j].index)
  }

  /** Tokens the batch asks to use, summed over its items. */
  function TotalTokens(items: seq<BatchItem>): Balance
  {
    if items == [] then 0 else items[0].amount + TotalTokens(items[1..])
  }

  /** The caller already has an Aye record on one of the listed proposals. */
  function HasVotedAny(s: State, who: AccountId, items: seq<BatchItem>): bool
  {
    exists j | 0 <= j < |items| :: VoterHasVoted(s, items[j].index, who)
  }

  /** Every listed proposal's end block is still ahead of `now`. */
  function AllStillLive(s: State, items: seq<BatchItem>, now: BlockNumber): bool
    requires AllRegisteredAndActive(s, items)
  {
    forall j | 0 <= j < |items| :: now < GetProposalEndBlock(s, items[j].index)
  }

  /** The listed proposal indices, in batch order and with repetitions. */
  function Indices(items: seq<BatchItem>): (r: seq<ProposalIndex>)
    ensures |r| == |items| && forall j | 0 <= j < |items| :: r[j] == items[j].index
  {
    seq(|items|, j requires 0 <= j < |items| => items[j].index)
  }

  /** Aye weight the batch adds to `index`: the square roots of its Aye amounts there. */
  function AyeWeight(items: seq<BatchItem>, index: ProposalIndex): nat
  {
    if items == [] then 0
    else
      (if items[0].vote.Aye? && items[0].index == index then Isqrt(items[0].amount) else 0)
      + AyeWeight(items[1..], index)
  }

  /** A batch adds no weight to a proposal it does not list. */
  lemma {:induction false} AyeWeightUnlisted(items: seq<BatchItem>, index: ProposalIndex)
    requires forall j | 0 <= j < |items| :: items[j].index != index
    ensures AyeWeight(items, index) == 0
    decreases |items|
  {
    if items != [] {
      assert forall j | 0 <= j < |items[1..]| :: items[1..][j] == items[j + 1];
      AyeWeightUnlisted(items[1..], index);
    }
  }

  /** Number of Aye items in the batch. */
  function CountAye(items: seq<BatchItem>): nat
  {
    if items == [] then 0 else (if items[0].vote.Aye? then 1 else 0) + CountAye(items[1..])
  }

  /** The Aye-vote keys the batch writes for `who`. */
  function AyeKeys(items: seq<BatchItem>, who: AccountId): set<VoteKey>
  {
    set j | 0 <= j < |items| && items[j].vote.Aye? :: (items[j].index, who)
  }

  function Repeat(e: Event, n: nat): (r: seq<Event>)
    ensures |r| == n && forall j | 0 <= j < n :: r[j] == e
  {
    seq(n, _ => e)
  }

  /**
   * The batch loop: each Aye item adds the square root of its amount to
   * the caller's record on its proposal (checked against the balance
   * type), rewrites the caller's free balance with itself and deposits a
   * ProposalsVoted event listing all of `all`; other items do nothing.
   */
  function ApplyVotes(s: State, who: AccountId, items: seq<BatchItem>, all: seq<ProposalIndex>)
    : Result<State>
    decreases |items|
  {
    if items == [] then Ok(s)
    else
      var item := items[0];
      if item.vote.Aye? then
        var key := (item.index, who);
        match CheckedAdd(WeightOf(s.ayeVotes, key), Isqrt(item.amount))
        case Err(e) => Err(e)
        case Ok(weight) =>
          var voted := s.(ayeVotes := s.ayeVotes[key := weight]);
          var next := voted.(ledger := s.ledger.SetFree(who, GetVoterBalance(voted, who)),
                             events := s.events + [ProposalsVoted(all)]);
          ApplyVotes(next, who, items[1..], all)
      else
        ApplyVotes(s, who, items[1..], all)
  }

  /**
   * The batch loop adds each Aye item's square root to the caller's record
   * on its proposal, creates records only for Aye items, deposits one
   * event per Aye item and changes nothing else; it can fail only on the
   * checked addition.
   */
  lemma {:induction false} ApplyVotesEffect(s: State, who: AccountId, items: seq<BatchItem>, all: seq<ProposalIndex>)
    ensures var r := ApplyVotes(s, who, items, all);
      && (r.Err? ==> r.error == AdditionOverflow)
      && (r.Ok? ==>
          && (forall k :: WeightOf(r.value.ayeVotes, k)
                == WeightOf(s.ayeVotes, k) + (if k.1 == who then AyeWeight(items, k.0) else 0))
          && r.value.ayeVotes.Keys == s.ayeVotes.Keys + AyeKeys(items, who)
          && r.value.events == s.events + Repeat(ProposalsVoted(all), CountAye(items))
          && s.ledger.SameBalances(r.value.ledger)
          && r.value.(ayeVotes := s.ayeVotes, ledger := s.ledger, events := s.events) == s)
    decreases |items|
  {
    if items != [] {
      var item := items[0];
      var rest := items[1..];
      assert AyeKeys(items, who) == (if item.vote.Aye? then {(item.index, who)} else {}) + AyeKeys(rest, who) by {
        forall k | k in AyeKeys(items, who)
          ensures k in (if item.vote.Aye? then {(item.index, who)} else {}) + AyeKeys(rest, who)
        {
          var j :| 0 <= j < |items| && items[j].vote.Aye? && k == (items[j].index, who);
          if j > 0 { assert rest[j - 1] == items[j]; }
        }
        forall k | k in AyeKeys(rest, who) ensures k in AyeKeys(items, who) {
          var j :| 0 <= j < |rest| && rest[j].vote.Aye? && k == (rest[j].index, who);
          assert items[j + 1] == rest[j];
        }
      }
      if item.vote.Aye? {
        var key := (item.index, who);
        var c := CheckedAdd(WeightOf(s.ayeVotes, key), Isqrt(item.amount));
        if c.Ok? {
          var voted := s.(ayeVotes := s.ayeVotes[key := c.value]);
          var next := voted.(ledger := s.ledger.SetFree(who, GetVoterBalance(voted, who)),
                             events := s.events + [ProposalsVoted(all)]);
          ApplyVotesEffect(next, who, rest, all);
          var r := ApplyVotes(next, who, rest, all);
          if r.Ok? {
            assert s.events + Repeat(ProposalsVoted(all), CountAye(items))
              == s.events + [ProposalsVoted(all)] + Repeat(ProposalsVoted(all), CountAye(rest));
          }
        }
      } else {
        ApplyVotesEffect(s, who, rest, all);
      }
    }
  }

  /**
   * The checked addition in the batch loop cannot overflow when every
   * listed record plus all the batch's tokens fits the balance type.
   */
  lemma {:induction false} ApplyVotesNoOverflow(s: State, who: AccountId, items: seq<BatchItem>, all: seq<ProposalIndex>)
    requires forall j | 0 <= j < |items| ::
      WeightOf(s.ayeVotes, (items[j].index, who)) + TotalTokens(items) <= BALANCE_MAX
    ensures ApplyVotes(s, who, items, all).Ok?
    decreases |items|
  {
    if items != [] {
      var item := items[0];
      var rest := items[1..];
      assert forall j | 0 <= j < |rest| :: rest[j] == items[j + 1];
      if item.vote.Aye? {
        var key := (item.index, who);
        assert WeightOf(s.ayeVotes, key) + TotalTokens(items) <= BALANCE_MAX;
        var weight := WeightOf(s.ayeVotes, key) + Isqrt(item.amount);
        var voted := s.(ayeVotes := s.ayeVotes[key := weight]);
        var next := voted.(ledger := s.ledger.SetFree(who, GetVoterBalance(voted, who)),
                           events := s.events + [ProposalsVoted(all)]);
        forall j | 0 <= j < |rest|
          ensures WeightOf(next.ayeVotes, (rest[j].index, who)) + TotalTokens(rest) <= BALANCE_MAX
        {
          assert WeightOf(s.ayeVotes, (items[j + 1].index, who)) + TotalTokens(items) <= BALANCE_MAX;
        }
        ApplyVotesNoOverflow(next, who, rest, all);
      } else {
        ApplyVotesNoOverflow(s, who, rest, all);
      }
    }
  }

  /** Every check `vote_multiple_proposals` makes before it reads the clock. */
  predicate BatchAccepted(s: State, who: AccountId, items: seq<BatchItem>)
  {
    && who in s.voters
    && AllRegisteredAndActive(s, items)
    && TotalTokens(items) <= s.ledger.Reserved(who)
    && !HasVotedAny(s, who, items)
  }

  /**
   * `vote_multiple_proposals`. Every check is made for the whole batch
   * before anything is written. If any listed proposal has reached its
   * end block, no vote is recorded: the current winner over all proposals
   * is marked Completed and announced (the `expect` inside panics when
   * there is no winner, i.e. the winner is 0). Otherwise each Aye item
   * adds the square root of its own amount to the caller's record on its
   * proposal, so a proposal listed twice accumulates both.
   */
  ghost function VoteMultipleProposals(s: State, origin: Origin, items: seq<BatchItem>,
                                       now: BlockNumber, order: seq<ProposalIndex>): (r: Result<State>)
    ensures r.Ok? ==> s.ledger.SameBalances(r.value.ledger)
    ensures !origin.Signed? ==> r == Err(BadOrigin)
    ensures origin.Signed? && origin.who !in s.voters ==> r == Err(NotRegisteredVoter)
    ensures (origin.Signed? && origin.who in s.voters && !AllRegisteredAndActive(s, items))
      ==> r == Err(AtLeastOneProposalNotRegisteredOrNotActive)
    ensures (origin.Signed? && origin.who in s.voters && AllRegisteredAndActive(s, items)
      && TotalTokens(items) > s.ledger.Reserved(origin.who)) ==> r == Err(NotEnoughReservedTokens)
    ensures (origin.Signed? && origin.who in s.voters && AllRegisteredAndActive(s, items)
      && TotalTokens(items) <= s.ledger.Reserved(origin.who) && HasVotedAny(s, origin.who, items))
      ==> r == Err(VoterAlreadyVoted)
    ensures origin.Signed? && BatchAccepted(s, origin.who, items) && !AllStillLive(s, items, now) ==>
      var w := WinnerOf(s.ayeVotes, order);
      && (r.Ok? <==> w in s.proposals)
      && (r.Err? ==> r.error == Panicked)
      && (r.Ok? ==>
          && r.value.proposals.Keys == s.proposals.Keys
          && r.value.proposals[w] == s.proposals[w].(index := w, status := Completed)
          && (forall j | j in s.proposals && j != w :: r.value.proposals[j] == s.proposals[j])
          && r.value.events == s.events + [VotingEnded(w)]
          && r.value.(proposals := s.proposals, events := s.events) == s)
    ensures origin.Signed? && BatchAccepted(s, origin.who, items) && AllStillLive(s, items, now) ==>
      var who := origin.who;
      && (r.Err? ==> r.error == AdditionOverflow)
      && (s.ledger.Reserved(who) <= BALANCE_MAX ==> r.Ok?)
      && (r.Ok? ==>
          && (forall j | 0 <= j < |items| ::
                WeightOf(r.value.ayeVotes, (items[j].index, who)) == AyeWeight(items, items[j].index))
          && (forall k :: WeightOf(r.value.ayeVotes, k)
                == WeightOf(s.ayeVotes, k) + (if k.1 == who then AyeWeight(items, k.0) else 0))
          && r.value.ayeVotes.Keys == s.ayeVotes.Keys + AyeKeys(items, who)
          && r.value.events == s.events + Repeat(ProposalsVoted(Indices(items)), CountAye(items))
          && r.value.(ayeVotes := s.ayeVotes, ledger := s.ledger, events := s.events) == s)
    ensures r.Ok? && Valid(s) ==> Valid(r.value) && Evolves(s, r.value)
  {
    if !origin.Signed? then Err(BadOrigin)
    else
      var who := origin.who;
      if !IsVoterRegistered(s, who) then Err(NotRegisteredVoter)
      else if !AllRegisteredAndActive(s, items) then Err(AtLeastOneProposalNotRegisteredOrNotActive)
      else if s.ledger.Reserved(who) < TotalTokens(items) then Err(NotEnoughReservedTokens)
      else if HasVotedAny(s, who, items) then Err(VoterAlreadyVoted)
      else if !AllStillLive(s, items, now) then
        var winner := WinnerOf(s.ayeVotes, order);
        match UpdateProposalStatusToCompleted(s, winner)
        case Err(e) => Err(e)
        case Ok(completed) => Ok(completed.(events := s.events + [VotingEnded(winner)]))
      else
        AcceptedBatch(s, who, items);
        ApplyVotes(s, who, items, Indices(items))
  }

  /**
   * The live branch of the batch call, once every check has passed: the
   * loop cannot overflow while the caller's reserve fits the balance type,
   * each listed proposal ends up with exactly the batch's Aye weight on it
   * (the caller had no record there before), and the invariants survive.
   */
  lemma AcceptedBatch(s: State, who: AccountId, items: seq<BatchItem>)
    requires BatchAccepted(s, who, items)
    ensures var r := ApplyVotes(s, who, items, Indices(items));
      && (r.Err? ==> r.error == AdditionOverflow)
      && (s.ledger.Reserved(who) <= BALANCE_MAX ==> r.Ok?)
      && (r.Ok? ==>
          && (forall j | 0 <= j < |items| ::
                WeightOf(r.value.ayeVotes, (items[j].index, who)) == AyeWeight(items, items[j].index))
          && (forall k :: WeightOf(r.value.ayeVotes, k)
                == WeightOf(s.ayeVotes, k) + (if k.1 == who then AyeWeight(items, k.0) else 0))
          && r.value.ayeVotes.Keys == s.ayeVotes.Keys + AyeKeys(items, who)
          && r.value.events == s.events + Repeat(ProposalsVoted(Indices(items)), CountAye(items))
          && s.ledger.SameBalances(r.value.ledger)
          && r.value.(ayeVotes := s.ayeVotes, ledger := s.ledger, events := s.events) == s)
      && (r.Ok? && Valid(s) ==> Valid(r.value) && Evolves(s, r.value))
  {
    var r := ApplyVotes(s, who, items, Indices(items));
    ApplyVotesEffect(s, who, items, Indices(items));
    forall j | 0 <= j < |items| ensures WeightOf(s.ayeVotes, (items[j].index, who)) == 0 {
      assert !VoterHasVoted(s, items[j].index, who);
    }
    if s.ledger.Reserved(who) <= BALANCE_MAX {
      ApplyVotesNoOverflow(s, who, items, Indices(items));
    }
    if r.Ok? {
      forall k | k in s.ayeVotes && k.1 == who ensures AyeWeight(items, k.0) == 0 {
        forall j | 0 <= j < |items| ensures items[j].index != k.0 {
          assert !VoterHasVoted(s, items[j].index, who);
        }
        AyeWeightUnlisted(items, k.0);
      }
    }
    if r.Ok? && Valid(s) {
      forall k | k in AyeKeys(items, who)
        ensures k.0 in s.proposals && k.1 in s.voters && s.proposals[k.0].status == InProgress
      {
        var j :| 0 <= j < |items| && items[j].vote.Aye? && k == (items[j].index, who);
        assert IsProposalActive(s, items[j].index);
      }
    }
  }
}
