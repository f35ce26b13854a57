/**
 * The in-memory mock ledger of the local-development servers: a counter
 * that numbers added transactions 1, 2, 3, ... and a list to whose front a
 * transaction is put once its delivery delay has passed.
 */
module MockStore {
  import opened JsValues

  /** The transaction object `addMockTransaction` builds; `created_at` is the clock's ISO text. */
  function MockTx(id: nat, from: Json, to: Json, amount: Json, memo: Json, createdAt: string): (tx: Json)
    ensures tx.Obj? && |tx.fields| == 6 && tx.fields[0] == ("id", Str(NatToString(id)))
  {
    Obj([("id", Str(NatToString(id))), ("from_pubkey", from), ("destination_pubkey", to), ("amount", amount),
      ("memo", memo), ("created_at", Str(createdAt))])
  }

  /** Different counter values give different id texts. */
  lemma IdTextsDiffer(n: nat, m: nat)
    requires n != m
    ensures NatToString(n) != NatToString(m)
  {
    ParseNatText(n);
    ParseNatText(m);
  }

  class MockLedger {
    var transactions: seq<Json>
    var nextId: nat
    /** The counter values handed out so far, in order. */
    ghost var issued: seq<nat>

    /** Ids are handed out in strictly increasing order, each below the counter. */
    ghost predicate Valid()
      reads this
    {
      && nextId >= 1
      && (forall i, j :: 0 <= i < j < |issued| ==> issued[i] < issued[j])
      && (forall i :: 0 <= i < |issued| ==> issued[i] < nextId)
    }

    constructor ()
      ensures Valid() && transactions == [] && nextId == 1 && issued == []
    {
      transactions, nextId, issued := [], 1, [];
    }

    /**
     * `addMockTransaction`: take the next id and build the transaction; it
     * joins the list only when delivered.
     */
    method Add(from: Json, to: Json, amount: Json, memo: Json, createdAt: string) returns (tx: Json)
      requires Valid()
      modifies this
      ensures Valid()
      ensures tx == MockTx(old(nextId), from, to, amount, memo, createdAt)
      ensures nextId == old(nextId) + 1 && issued == old(issued) + [old(nextId)]
      ensures transactions == old(transactions)
    {
      tx := MockTx(nextId, from, to, amount, memo, createdAt);
      issued := issued + [nextId];
      nextId := nextId + 1;
    }

    /** The delayed `mockStore.transactions.unshift(tx)`. */
    method Deliver(tx: Json)
      modifies this`transactions
      ensures transactions == [tx] + old(transactions)
    {
      transactions := [tx] + transactions;
    }
  }

  /** No two transactions the ledger has handed out share an id. */
  lemma IssuedIdsDistinct(ledger: MockLedger)
    requires ledger.Valid()
    ensures forall i, j :: 0 <= i < j < |ledger.issued| ==> NatToString(ledger.issued[i]) != NatToString(ledger.issued[j])
  {
    forall i, j | 0 <= i < j < |ledger.issued|
      ensures NatToString(ledger.issued[i]) != NatToString(ledger.issued[j])
    {
      IdTextsDiffer(ledger.issued[i], ledger.issued[j]);
    }
  }
}
