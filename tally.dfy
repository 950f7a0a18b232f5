/**
 * The Aye-vote table and winner selection: a proposal's total is the sum
 * of the weights every voter holds on it, and the winner is the first
 * proposal, in storage iteration order, whose total strictly exceeds every
 * total met before it (0 when no proposal has a positive total).
 */
module Tally {
  import opened Types

  type Votes = map<VoteKey, Balance>

  /** A read of the Aye-vote table, which yields 0 for an absent key. */
  function WeightOf(votes: Votes, key: VoteKey): Balance
  {
    if key in votes then votes[key] else 0
  }

  /** Sum of the weights stored under `keys`. */
  ghost function SumOver(votes: Votes, keys: set<VoteKey>): nat
    requires keys <= votes.Keys
    decreases keys
  {
    if keys == {} then 0
    else
      var k :| k in keys;
      votes[k] + SumOver(votes, keys - {k})
  }

  /** The keys of the table that belong to proposal `index`. */
  ghost function KeysOf(votes: Votes, index: ProposalIndex): set<VoteKey>
  {
    set k | k in votes.Keys && k.0 == index
  }

  /** Total Aye weight of proposal `index`, over every voter. */
  ghost function TotalOf(votes: Votes, index: ProposalIndex): nat
  {
    SumOver(votes, KeysOf(votes, index))
  }

  /** The sum does not depend on which key is taken out first. */
  lemma {:induction false} SumOverRemove(votes: Votes, keys: set<VoteKey>, k: VoteKey)
    requires keys <= votes.Keys && k in keys
    ensures SumOver(votes, keys) == votes[k] + SumOver(votes, keys - {k})
    decreases keys
  {
    var j :| j in keys && SumOver(votes, keys) == votes[j] + SumOver(votes, keys - {j});
    if j != k {
      SumOverRemove(votes, keys - {j}, k);
      SumOverRemove(votes, keys - {k}, j);
      assert keys - {j} - {k} == keys - {k} - {j};
    }
  }

  /** A sum of weights is positive exactly when one of its weights is. */
  lemma {:induction false} SumOverPositive(votes: Votes, keys: set<VoteKey>)
    requires keys <= votes.Keys
    ensures SumOver(votes, keys) > 0 <==> exists k :: k in keys && votes[k] > 0
    decreases keys
  {
    if keys != {} {
      var k :| k in keys;
      SumOverRemove(votes, keys, k);
      SumOverPositive(votes, keys - {k});
    }
  }

  /** A proposal with a positive total holds at least one vote record. */
  lemma TotalPositiveHasRecord(votes: Votes, index: ProposalIndex)
    requires TotalOf(votes, index) > 0
    ensures exists who :: (index, who) in votes && votes[(index, who)] > 0
  {
    SumOverPositive(votes, KeysOf(votes, index));
    var k :| k in KeysOf(votes, index) && votes[k] > 0;
    assert (index, k.1) == k;
  }

  /** The summation over one proposal's prefix of the table (`iter_prefix(..).sum()`). */
  method TotalVotes(votes: Votes, index: ProposalIndex) returns (total: nat)
    ensures total == TotalOf(votes, index)
  {
    var rest := set k | k in votes.Keys && k.0 == index;
    total := 0;
    while rest != {}
      invariant rest <= votes.Keys
      invariant total + SumOver(votes, rest) == TotalOf(votes, index)
      decreases rest
    {
      var k :| k in rest;
      SumOverRemove(votes, rest, k);
      total := total + votes[k];
      rest := rest - {k};
    }
  }

  /**
   * The scan's accumulators (max_votes, winner) after visiting `order`
   * from the left, replacing the leader only on a strictly greater total.
   */
  ghost function Best(votes: Votes, order: seq<ProposalIndex>): (nat, ProposalIndex)
    decreases |order|
  {
    if order == [] then (0, 0)
    else
      var (max, winner) := Best(votes, order[..|order| - 1]);
      var index := order[|order| - 1];
      var total := TotalOf(votes, index);
      if total > max then (total, index) else (max, winner)
  }

  /** `get_winner` over the proposals visited in `order`. */
  ghost function WinnerOf(votes: Votes, order: seq<ProposalIndex>): ProposalIndex
  {
    Best(votes, order).1
  }

  /**
   * `order[k]` has the largest total in `order`, and every proposal
   * visited before position k has a strictly smaller one.
   */
  ghost predicate LeadsAt(votes: Votes, order: seq<ProposalIndex>, k: nat)
    requires k < |order|
  {
    && (forall j | 0 <= j < |order| :: TotalOf(votes, order[j]) <= TotalOf(votes, order[k]))
    && (forall j | 0 <= j < k :: TotalOf(votes, order[j]) < TotalOf(votes, order[k]))
  }

  /**
   * `w` is the winner of `order`: 0 when every total is 0, otherwise the
   * first proposal reached in `order` whose positive total is the largest.
   */
  ghost predicate IsWinner(votes: Votes, order: seq<ProposalIndex>, w: ProposalIndex)
  {
    if forall j | 0 <= j < |order| :: TotalOf(votes, order[j]) == 0 then w == 0
    else exists k | 0 <= k < |order| :: order[k] == w && TotalOf(votes, w) > 0 && LeadsAt(votes, order, k)
  }

  lemma {:induction false} BestIsLeader(votes: Votes, order: seq<ProposalIndex>)
    ensures var (max, w) := Best(votes, order);
      && (forall j | 0 <= j < |order| :: TotalOf(votes, order[j]) <= max)
      && (max == 0 ==> w == 0)
      && (max > 0 ==> exists k | 0 <= k < |order| ::
            && order[k] == w && TotalOf(votes, w) == max
            && forall j | 0 <= j < k :: TotalOf(votes, order[j]) < max)
    decreases |order|
  {
    if order != [] {
      var n := |order| - 1;
      var prefix := order[..n];
      BestIsLeader(votes, prefix);
      var (m, w) := Best(votes, prefix);
      var index := order[n];
      assert forall j | 0 <= j < n :: order[j] == prefix[j];
      if TotalOf(votes, index) > m {
        assert order[n] == index;
      } else if m > 0 {
        var k :| 0 <= k < n && prefix[k] == w && TotalOf(votes, w) == m
          && forall j | 0 <= j < k :: TotalOf(votes, prefix[j]) < m;
        assert order[k] == w;
      }
    }
  }

  /** The scan's result is the winner: the first largest positive total, or 0. */
  lemma WinnerOfIsWinner(votes: Votes, order: seq<ProposalIndex>)
    ensures IsWinner(votes, order, WinnerOf(votes, order))
  {
    BestIsLeader(votes, order);
    var (max, w) := Best(votes, order);
    if !(forall j | 0 <= j < |order| :: TotalOf(votes, order[j]) == 0) {
      var j :| 0 <= j < |order| && TotalOf(votes, order[j]) != 0;
      assert max > 0;
      var k :| 0 <= k < |order| && order[k] == w && TotalOf(votes, w) == max
        && forall j | 0 <= j < k :: TotalOf(votes, order[j]) < max;
      assert LeadsAt(votes, order, k);
    }
  }

  /** At most one proposal is the winner of a given order. */
  lemma WinnerIsUnique(votes: Votes, order: seq<ProposalIndex>, w1: ProposalIndex, w2: ProposalIndex)
    requires IsWinner(votes, order, w1) && IsWinner(votes, order, w2)
    ensures w1 == w2
  {
    if !(forall j | 0 <= j < |order| :: TotalOf(votes, order[j]) == 0) {
      var k1 :| 0 <= k1 < |order| && order[k1] == w1 && TotalOf(votes, w1) > 0 && LeadsAt(votes, order, k1);
      var k2 :| 0 <= k2 < |order| && order[k2] == w2 && TotalOf(votes, w2) > 0 && LeadsAt(votes, order, k2);
      assert k1 == k2;
    }
  }

  /**
   * When 0 is not a proposal index in `order`, the winner is 0 exactly
   * when no proposal has a positive total.
   */
  lemma WinnerZeroIffNoVotes(votes: Votes, order: seq<ProposalIndex>)
    requires 0 !in order
    ensures WinnerOf(votes, order) == 0 <==> forall j | 0 <= j < |order| :: TotalOf(votes, order[j]) == 0
  {
    WinnerOfIsWinner(votes, order);
  }

  /** `get_winner`: one pass over `order` with mutable `max_votes` and `winner`. */
  method GetWinner(votes: Votes, order: seq<ProposalIndex>) returns (winner: ProposalIndex)
    ensures winner == WinnerOf(votes, order)
    ensures IsWinner(votes, order, winner)
  {
    var maxVotes := 0;
    winner := 0;
    var i := 0;
    while i < |order|
      invariant 0 <= i <= |order|
      invariant (maxVotes, winner) == Best(votes, order[..i])
    {
      var total := TotalVotes(votes, order[i]);
      assert order[..i + 1][..i] == order[..i];
      if total > maxVotes {
        maxVotes := total;
        winner := order[i];
      }
      i := i + 1;
    }
    assert order[..|order|] == order;
    WinnerOfIsWinner(votes, order);
  }
}
