# Quadratic-voting pallet, modelled in Dafny

This project models the voting pallet of a Substrate node
(`substrate-node-template/pallets/voting/src/lib.rs`). The pallet is a
sequential state machine over four tables:

- the registered voters;
- the proposals, a counted map keyed by proposal index;
- the Aye-vote weights, a double map keyed by (proposal, voter);
- the host ledger's free and reserved balances.

Root registers voters, endowing each with 100 tokens minus a fee. Any
voter may file a proposal; any voter may start it by paying a burned
fee. Voters move tokens between free and reserved; unreserving costs half
of what is unreserved. An Aye vote weighs the integer square root of the
voter's reserved tokens, and voting spends nothing: the reserved tokens
stay reserved and the free balance is unchanged. Once a proposal's
end block is reached, the next vote on it ends the voting instead of
counting: it marks a proposal Completed and announces as winner the
proposal with the largest Aye total.

Layout:

- `types.dfy` (`Types`): the pallet's entities, events and errors.
- `arith.dfy` (`Arith`): the checked balance arithmetic and the integer
  square root.
- `balances.dfy` (`Balances`): the ledger the pallet calls through its
  currency capability.
- `tally.dfy` (`Tally`): proposal totals and the winner scan, both as
  specification and as the loop `get_winner` runs.
- `voting.dfy` (`Voting`): the storage as a value `State`, and each
  dispatchable call as a function from the state before the call to the
  state after it or to the error it fails with. Their `ensures` clauses
  state what each call promises: when it succeeds, which error wins when
  several apply, and exactly what it writes.
- `lifecycle.dfy` (`Lifecycle`): any sequence of calls keeps the storage
  invariants; proposals, Aye records and events are never undone; the
  announced winner leads.
- `pallet.dfy` (`PalletImpl`): the pallet as it runs, with storage items
  as fields of a class updated in place. Each method is proved to return
  what the matching `Voting` function returns and to leave exactly the
  storage that function describes.
- `scenarios.dfy` (`Scenarios`): the unit tests' scenarios replayed on the
  model.

A failed call changes nothing (`Voting.Commit`), as with the runtime's
transactional dispatch. The block number, the configured voting period,
and the order in which storage iterates the proposals are inputs of the
calls that read them.

Behaviour of the pallet worth noting:

- The winner scan visits proposals in storage iteration order, which is
  hash order. Ties go to the first proposal visited in that order.
- The batch call deposits one `ProposalsVoted` event, listing every
  proposal of the batch, for each Aye item it processes; Nay and Abstain
  items deposit nothing.
- When a batch ends the voting, the winner is chosen over all proposals
  in storage.
- When no proposal holds any Aye weight, the winner is 0. A batch call that
  ends the voting then panics, because the status update that follows
  expects proposal 0 to exist.

## Model

| member | source | states |
|---|---|---|
| `Arith.CheckedSub` | substrate-node-template/pallets/voting/src/lib.rs:571-578 | succeeds exactly when b <= a, returning a - b; otherwise fails with SubstractionOverflow |
| `Arith.CheckedAdd` | substrate-node-template/pallets/voting/src/lib.rs:579-586 | succeeds exactly when a + b fits in u128, returning the sum; otherwise fails with AdditionOverflow |
| `Arith.CheckedDiv` | substrate-node-template/pallets/voting/src/lib.rs:587-592 | fails with SlashFailed exactly when the divisor is 0; otherwise returns the floor quotient q, with q*b <= a < (q+1)*b |
| `Arith.Isqrt` | substrate-node-template/pallets/voting/src/lib.rs:357 | `integer_sqrt` is the floor square root: r*r <= n < (r+1)*(r+1), and r <= n |
| `Arith.IsqrtUnique` | substrate-node-template/pallets/voting/src/lib.rs:357 | any r within the square-root bounds of n is the square root, so concrete weights (7 for 50, 9 for 90) are determined |
| `Arith.IsqrtMonotone` | substrate-node-template/pallets/voting/src/lib.rs:485 | more tokens never give less weight |
| `Balances.Book.SetFree` | substrate-node-template/pallets/voting/src/lib.rs:189 | `make_free_balance_be` sets the free balance of one account and touches nothing else; writing the current value changes no balance |
| `Balances.Book.Reserve` | substrate-node-template/pallets/voting/src/lib.rs:301 | succeeds exactly when free covers the amount, moving it from free to reserved; the total and the other accounts are unchanged |
| `Balances.Book.Unreserve` | substrate-node-template/pallets/voting/src/lib.rs:395 | moves min(amount, reserved) from reserved to free; the total and the other accounts are unchanged |
| `Balances.Book.Slash` | substrate-node-template/pallets/voting/src/lib.rs:401-406 | burns min(amount, total); when free covers the amount, it all comes out of free and reserved is untouched |
| `Tally.SumOverRemove` | substrate-node-template/pallets/voting/src/lib.rs:599-601 | the sum of weights over a set of keys does not depend on the order in which keys are taken |
| `Tally.SumOverPositive` | substrate-node-template/pallets/voting/src/lib.rs:599-601 | a sum of weights is positive exactly when one of its weights is |
| `Tally.TotalPositiveHasRecord` | substrate-node-template/pallets/voting/src/lib.rs:599-601 | a proposal with a positive total has an Aye record of positive weight |
| `Tally.TotalVotes` | substrate-node-template/pallets/voting/src/lib.rs:599-601 | the loop that sums a proposal's prefix of the Aye table returns its total over every voter |
| `Tally.BestIsLeader` | substrate-node-template/pallets/voting/src/lib.rs:594-608 | the scan's maximum bounds every total visited; a positive maximum is the total of the returned proposal, and every proposal visited before it has a strictly smaller total; a zero maximum returns 0 |
| `Tally.WinnerOfIsWinner` | substrate-node-template/pallets/voting/src/lib.rs:594-608 | the scan returns 0 when every total is 0, and otherwise the first proposal in iteration order with the largest, positive total |
| `Tally.WinnerIsUnique` | substrate-node-template/pallets/voting/src/lib.rs:594-608 | the winner characterisation determines a single proposal: the strict comparison breaks ties toward the earlier one |
| `Tally.WinnerZeroIffNoVotes` | substrate-node-template/pallets/voting/src/lib.rs:596-607 | when 0 is not a visited index, the winner is 0 exactly when no visited proposal has a positive total |
| `Tally.GetWinner` | substrate-node-template/pallets/voting/src/lib.rs:594-608 | `get_winner`'s loop over `max_votes` and `winner` returns the winner over the given order |
| `Voting.GenesisValid` | substrate-node-template/pallets/voting/src/lib.rs:48-65 | empty storage satisfies the storage invariants |
| `Voting.IsProposalActive` | substrate-node-template/pallets/voting/src/lib.rs:522-530 | true exactly when the proposal exists and is InProgress |
| `Voting.GetVoterBalance` | substrate-node-template/pallets/voting/src/lib.rs:553-555 | total minus reserved is the free balance |
| `Voting.UpdateProposalStatusToCompleted` | substrate-node-template/pallets/voting/src/lib.rs:556-570 | panics exactly when the proposal is missing; otherwise rewrites only that proposal, under its key, as Completed |
| `Voting.RegisterVoter` | substrate-node-template/pallets/voting/src/lib.rs:171-194 | succeeds exactly for root, a new voter and 0 < fee <= 100; errors in order BadOrigin, VoterAlreadyRegistered, InsufficientFee, SubstractionOverflow; on success the voter is registered, its free balance is exactly 100 - fee, nothing else changes, one VoterRegistered event is deposited, and the invariants hold |
| `Voting.CreateProposal` | substrate-node-template/pallets/voting/src/lib.rs:208-227 | succeeds exactly for a registered signer; inserts a NotStarted proposal under the fresh index count + 1, ending `period` blocks from now; the count becomes that index; existing proposals are untouched |
| `Voting.StartProposal` | substrate-node-template/pallets/voting/src/lib.rs:242-276 | succeeds exactly for a registered signer, an existing NotStarted proposal and 0 < fee <= free; NotEnoughBalance is checked before ProposalAlreadyStarted and InsufficientFee; on success only that proposal becomes InProgress, and the caller's free balance and total both drop by exactly the fee, which is credited to no one |
| `Voting.ReserveTokens` | substrate-node-template/pallets/voting/src/lib.rs:292-305 | succeeds exactly when 0 < amount <= free; moves exactly `amount` from free to reserved, keeping the total |
| `Voting.UnreserveTokens` | substrate-node-template/pallets/voting/src/lib.rs:387-412 | succeeds exactly when 0 < amount <= reserved; reserved drops by `amount`, free becomes free + amount - amount/2, the total drops by amount/2, and the event reports that free balance; SlashFailed never occurs |
| `Voting.VoteProposal` | substrate-node-template/pallets/voting/src/lib.rs:323-371 | after the end block it completes that proposal and announces the winner, whatever the caller holds; before it, it needs reserved > 0; a first Aye stores isqrt(reserved) and a second fails VoterAlreadyVoted; Nay and Abstain change nothing; no balance ever changes |
| `Voting.AyeWeightUnlisted` | substrate-node-template/pallets/voting/src/lib.rs:475-509 | a batch adds no weight to a proposal it does not list |
| `Voting.ApplyVotesEffect` | substrate-node-template/pallets/voting/src/lib.rs:475-509 | the loop adds each Aye item's square root to the caller's record on that proposal, so duplicates accumulate; it creates records only for Aye items, deposits one event per Aye item, changes no balance, and fails only with AdditionOverflow |
| `Voting.ApplyVotesNoOverflow` | substrate-node-template/pallets/voting/src/lib.rs:482-491 | the checked addition cannot fail while every listed record plus all the batch's tokens fits in u128 |
| `Voting.AcceptedBatch` | substrate-node-template/pallets/voting/src/lib.rs:433-509 | after the checks pass, the loop cannot overflow while the caller's reserve fits in u128; each listed proposal gets exactly the batch's Aye weight; the invariants hold |
| `Voting.VoteMultipleProposals` | substrate-node-template/pallets/voting/src/lib.rs:428-512 | every check is made before any write, with errors in the source's order; if any listed proposal has ended, no vote is recorded and the winner over all proposals is completed and announced, or the call panics when the winner is not a proposal; otherwise each Aye item's square root is added to the caller's record |
| `Lifecycle.DispatchKeepsInvariants` | substrate-node-template/pallets/voting/src/lib.rs:157-513 | each dispatchable, from any origin and in any block, keeps indices 1..count and Aye records on started proposals of registered voters, and undoes nothing |
| `Lifecycle.RunKeepsInvariants` | substrate-node-template/pallets/voting/src/lib.rs:157-513 | any sequence of extrinsics keeps the invariants and undoes nothing |
| `Lifecycle.ReachableIsValid` | substrate-node-template/pallets/voting/src/lib.rs:48-65 | every state reachable from genesis satisfies the storage invariants |
| `Lifecycle.CompletedIsFinal` | substrate-node-template/pallets/voting/src/lib.rs:556-570 | a completed proposal stays exactly as it is under any later calls |
| `Lifecycle.VoteIsFinal` | substrate-node-template/pallets/voting/src/lib.rs:349-358 | an Aye record is never changed or removed by later calls |
| `Lifecycle.WinnerLeads` | substrate-node-template/pallets/voting/src/lib.rs:594-608 | over the whole proposal table, the winner is 0 exactly when no proposal holds Aye weight, and otherwise an existing proposal whose positive total is at least every other total |
| `Lifecycle.BatchExpiryPanicsIffNoVotes` | substrate-node-template/pallets/voting/src/lib.rs:460-473 | a batch that ends the voting panics exactly when no proposal holds any Aye weight |
| `PalletImpl.Pallet.constructor` | substrate-node-template/pallets/voting/src/lib.rs:48-65 | storage starts empty over the genesis ledger, satisfying the invariants |
| `PalletImpl.Pallet.RegisterVoter` | substrate-node-template/pallets/voting/src/lib.rs:171-194 | the in-place call returns `Voting.RegisterVoter`'s outcome and leaves its storage |
| `PalletImpl.Pallet.CreateProposal` | substrate-node-template/pallets/voting/src/lib.rs:208-227 | the in-place call returns `Voting.CreateProposal`'s outcome and leaves its storage |
| `PalletImpl.Pallet.StartProposal` | substrate-node-template/pallets/voting/src/lib.rs:242-276 | the in-place call returns `Voting.StartProposal`'s outcome and leaves its storage |
| `PalletImpl.Pallet.ReserveTokens` | substrate-node-template/pallets/voting/src/lib.rs:292-305 | the in-place call returns `Voting.ReserveTokens`'s outcome and leaves its storage |
| `PalletImpl.Pallet.UnreserveTokens` | substrate-node-template/pallets/voting/src/lib.rs:387-412 | the in-place call returns `Voting.UnreserveTokens`'s outcome and leaves its storage |
| `PalletImpl.Pallet.UpdateProposalStatusToCompleted` | substrate-node-template/pallets/voting/src/lib.rs:556-570 | the in-place update returns `Voting.UpdateProposalStatusToCompleted`'s outcome and leaves its storage |
| `PalletImpl.Pallet.VoteProposal` | substrate-node-template/pallets/voting/src/lib.rs:323-371 | the in-place call, with `get_winner`'s loop, returns `Voting.VoteProposal`'s outcome and leaves its storage |
| `PalletImpl.Pallet.VoteMultipleProposals` | substrate-node-template/pallets/voting/src/lib.rs:428-512 | the in-place call and its loop return `Voting.VoteMultipleProposals`'s outcome and leave its storage, writing nothing when the loop overflows |
| `Scenarios.ReserveThenUnreserve` | substrate-node-template/pallets/voting/src/tests.rs:136-152 | register with fee 5, reserve 50, unreserve 50: free 95, then 45, then 70, with event TokensUnreserved(1, 50, 70) |
| `Scenarios.RegistrationErrors` | substrate-node-template/pallets/voting/src/tests.rs:29-67 | fee 0, a second registration and fee 101 fail with InsufficientFee, VoterAlreadyRegistered and SubstractionOverflow |
| `Scenarios.CreateAndStart` | substrate-node-template/pallets/voting/src/tests.rs:214-345 | the first proposal is index 1, NotStarted; starting it for 10 leaves 85; it cannot be started twice, for 100, or for 0 |
| `Scenarios.VoteWithReservedTokens` | substrate-node-template/pallets/voting/src/tests.rs:351-449 | without reserve an Aye fails; with 50 reserved it weighs 7 and spends nothing; a second Aye fails |
| `Scenarios.WinnerTest` | substrate-node-template/pallets/voting/src/tests.rs:473-518 | totals 13 and 20 make proposal 2 the winner in either iteration order |
| `Scenarios.MultipleVotes` | substrate-node-template/pallets/voting/src/tests.rs:524-545 | with 70 reserved, a batch of Aye 50 and Aye 20 is accepted, records weights 7 and 4, leaves the balances alone, and its last event is ProposalsVoted([1, 2]) |
| `Scenarios.BatchTest` | substrate-node-template/pallets/voting/src/tests.rs:548-566 | with 60 reserved, a batch of Aye 10 and Aye 5 records weights 3 and 2, with two ProposalsVoted([1, 2]) events |
| `Scenarios.BatchAfterPeriod` | substrate-node-template/pallets/voting/src/tests.rs:548-584 | after the period a batch records nothing and completes and announces proposal 1 (3 against 2) |
| `Scenarios.BatchAfterPeriodWithoutVotes` | substrate-node-template/pallets/voting/src/lib.rs:557-558 | with no Aye recorded anywhere, a batch after the period panics |

## Left out

- FRAME machinery is not modelled: the pallet macros, the `Config` trait, codec derives, storage hashers, weights and benchmarks. Events are an appended sequence.
- Origins are reduced to `Root | Signed(who)`; any other origin fails with BadOrigin.
- The ledger is reduced to free and reserved maps. It has no existential deposit, no account reaping and no total issuance. `slash` is assumed to take from free before reserved; the pallet only slashes amounts that free covers.
- Proposal text is an opaque hash value; Blake2 hashing is not modelled.
- The storage iteration order of `Proposals::iter()` is hash order. It is a parameter `order` of the vote calls, not derived from the keys. `Lifecycle.Enumerates` states what a faithful order is.
- Integer widths: all quantities are unbounded, except that the batch loop's checked addition fails beyond u128. These unchecked additions are not modelled as overflowing: the proposal count + 1 (lib.rs:212), the end block, block number plus voting period (lib.rs:214), the vote weight in the single-vote path (lib.rs:357), the batch's token sum (lib.rs:449), and the u128 sum and saturating conversion in `get_winner` (lib.rs:600-611). Block numbers and proposal indices are unbounded too.
- A panic (an `expect` on a missing proposal) is the error `Panicked` with no state change. The runtime's handling of a panicking extrinsic is not modelled.
- `PalletImpl.Pallet.VoteMultipleProposals` buffers the loop's writes in local variables and stores them after the loop. The pallet writes in place and relies on the runtime rolling back a failed call; the resulting storage is the same.
- The clock is an input of each call, and nothing requires it to increase between calls. The test runtime's voting period is set in its mock runtime, which is not modelled; the scenarios take 100 blocks and build some states directly rather than by replaying every call.
- Queries without a promise beyond their body (`is_voter_registered`, `is_proposal_registered`, `voter_has_voted`, `get_aye_votes_balance`, `get_proposal_status`, `get_proposal_end_block`) are modelled as plain functions. The latter two require the proposal to exist, in place of their `expect`.
- `balance_to_u128` is the identity on unbounded balances.
