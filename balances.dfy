/**
 * The host ledger the pallet calls through its `Currency` capability,
 * reduced to a free and a reserved balance per account. An account that
 * has never been written holds zero of each.
 */
module Balances {
  import opened Types

  datatype Book = Book(free: map<AccountId, Balance>, reserved: map<AccountId, Balance>) {

    function Free(who: AccountId): Balance
    {
      if who in free then free[who] else 0
    }

    function Reserved(who: AccountId): Balance
    {
      if who in reserved then reserved[who] else 0
    }

    function Total(who: AccountId): Balance
    {
      Free(who) + Reserved(who)
    }

    /** Every account other than `who` holds the same balances in `this` and `other`. */
    ghost predicate SameExcept(other: Book, who: AccountId)
    {
      forall a | a != who :: other.Free(a) == Free(a) && other.Reserved(a) == Reserved(a)
    }

    /** Every account holds the same balances in `this` and `other`. */
    ghost predicate SameBalances(other: Book)
    {
      forall a :: other.Free(a) == Free(a) && other.Reserved(a) == Reserved(a)
    }

    /** `make_free_balance_be`: overwrite the free balance of `who`. */
    function SetFree(who: AccountId, amount: Balance): (r: Book)
      ensures r.Free(who) == amount && r.Reserved(who) == Reserved(who)
      ensures SameExcept(r, who)
      ensures amount == Free(who) ==> SameBalances(r)
    {
      Book(free[who := amount], reserved)
    }

    /** `reserve`: move `amount` from free to reserved; refused when free is short. */
    function Reserve(who: AccountId, amount: Balance): (r: Result<Book>)
      ensures r.Ok? <==> amount <= Free(who)
      ensures r.Err? ==> r.error == InsufficientBalance
      ensures r.Ok? ==> r.value.Free(who) + amount == Free(who)
      ensures r.Ok? ==> r.value.Reserved(who) == Reserved(who) + amount
      ensures r.Ok? ==> r.value.Total(who) == Total(who) && SameExcept(r.value, who)
    {
      if amount <= Free(who) then
        Ok(Book(free[who := Free(who) - amount], reserved[who := Reserved(who) + amount]))
      else
        Err(InsufficientBalance)
    }

    /**
     * `unreserve`: move `amount` from reserved back to free, best effort:
     * at most what is reserved moves.
     */
    function Unreserve(who: AccountId, amount: Balance): (r: Book)
      ensures var moved := if amount <= Reserved(who) then amount else Reserved(who);
        && r.Reserved(who) + moved == Reserved(who)
        && r.Free(who) == Free(who) + moved
      ensures r.Total(who) == Total(who) && SameExcept(r, who)
    {
      var moved := if amount <= Reserved(who) then amount else Reserved(who);
      Book(free[who := Free(who) + moved], reserved[who := Reserved(who) - moved])
    }

    /**
     * `slash`: destroy up to `amount` of the balance of `who`, taking it
     * from free first and the rest from reserved. Nothing is credited
     * anywhere.
     */
    function Slash(who: AccountId, amount: Balance): (r: Book)
      ensures amount <= Free(who) ==> r.Free(who) + amount == Free(who) && r.Reserved(who) == Reserved(who)
      ensures r.Total(who) + (if amount <= Total(who) then amount else Total(who)) == Total(who)
      ensures SameExcept(r, who)
    {
      var fromFree := if amount <= Free(who) then amount else Free(who);
      var rest := amount - fromFree;
      var fromReserved := if rest <= Reserved(who) then rest else Reserved(who);
      Book(free[who := Free(who) - fromFree], reserved[who := Reserved(who) - fromReserved])
    }
  }
}
