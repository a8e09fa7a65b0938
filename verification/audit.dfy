/** The bookkeeping view of the store: the ledger sum of a token, how far a
    card's cached balance stands from it, and the invariants that tie the
    cards to the ledger. */
module Audit {
  import opened Db

  /** What one row contributes to the ledger sum of `token`. */
  function Share(x: Tx, token: string): int {
    if x.token == token then x.delta else 0
  }

  /** The sum of the deltas of all rows carrying `token`. */
  function Sum(txs: seq<Tx>, token: string): int {
    if |txs| == 0 then 0
    else Sum(txs[..|txs| - 1], token) + Share(txs[|txs| - 1], token)
  }

  /** The card's cached balance minus its ledger sum; zero when they agree. */
  function Drift(s: Store, token: string): int
    requires token in s.cards
  {
    s.cards[token].balance - Sum(s.txs, token)
  }

  /** Every card's balance equals the sum of its ledger rows. */
  predicate Consistent(s: Store) {
    forall t :: t in s.cards ==> s.cards[t].balance == Sum(s.txs, t)
  }

  /** Every ledger row belongs to an existing card. */
  predicate Anchored(s: Store) {
    forall i :: 0 <= i < |s.txs| ==> s.txs[i].token in s.cards
  }

  /** Ids strictly increase along the ledger and stay below the next id. */
  predicate Ordered(s: Store) {
    && (forall i, j :: 0 <= i < j < |s.txs| ==> s.txs[i].id < s.txs[j].id)
    && (forall i :: 0 <= i < |s.txs| ==> s.txs[i].id < s.nextId)
  }

  /** The three together: what the ledger operations keep. */
  predicate Sound(s: Store) {
    Consistent(s) && Anchored(s) && Ordered(s)
  }

  /** Booth rows are deductions stamped with a booth name; admin rows carry
      no booth. */
  predicate WellSourced(s: Store) {
    forall i :: 0 <= i < |s.txs| ==>
      if s.txs[i].source == FromBooth then s.txs[i].delta < 0 && s.txs[i].booth != ""
      else s.txs[i].booth == ""
  }

  lemma SumAppend(txs: seq<Tx>, x: Tx, token: string)
    ensures Sum(txs + [x], token) == Sum(txs, token) + Share(x, token)
  {
  }

  /** Removing a token's rows zeroes its sum and leaves every other sum alone. */
  lemma {:induction false} SumWithout(txs: seq<Tx>, gone: string, token: string)
    ensures Sum(Without(txs, gone), token) == if token == gone then 0 else Sum(txs, token)
    decreases |txs|
  {
    if |txs| > 0 {
      var init := txs[..|txs| - 1];
      var last := txs[|txs| - 1];
      SumWithout(init, gone, token);
      if last.token != gone {
        SumAppend(Without(init, gone), last, token);
      }
    }
  }

  /** A token no row carries has sum zero. */
  lemma {:induction false} SumOfUnused(txs: seq<Tx>, token: string)
    requires forall i :: 0 <= i < |txs| ==> txs[i].token != token
    ensures Sum(txs, token) == 0
    decreases |txs|
  {
    if |txs| > 0 {
      SumOfUnused(txs[..|txs| - 1], token);
    }
  }

  /** Dropping a token's rows keeps the ids ascending. */
  lemma {:induction false} WithoutAscending(txs: seq<Tx>, gone: string)
    requires forall i, j :: 0 <= i < j < |txs| ==> txs[i].id < txs[j].id
    ensures forall i, j :: 0 <= i < j < |Without(txs, gone)| ==>
      Without(txs, gone)[i].id < Without(txs, gone)[j].id
    decreases |txs|
  {
    if |txs| > 0 {
      var init := txs[..|txs| - 1];
      var last := txs[|txs| - 1];
      WithoutAscending(init, gone);
      var w := Without(init, gone);
      if last.token != gone {
        forall i | 0 <= i < |w| ensures w[i].id < last.id {
          assert w[i] in init;
        }
        assert Without(txs, gone) == w + [last];
      }
    }
  }

  /** Picking out a token's rows keeps the ids ascending. */
  lemma {:induction false} RowsOfAscending(txs: seq<Tx>, token: string)
    requires forall i, j :: 0 <= i < j < |txs| ==> txs[i].id < txs[j].id
    ensures forall i, j :: 0 <= i < j < |RowsOf(txs, token)| ==>
      RowsOf(txs, token)[i].id < RowsOf(txs, token)[j].id
    decreases |txs|
  {
    if |txs| > 0 {
      var init := txs[..|txs| - 1];
      var last := txs[|txs| - 1];
      RowsOfAscending(init, token);
      var r := RowsOf(init, token);
      if last.token == token {
        forall i | 0 <= i < |r| ensures r[i].id < last.id {
          assert r[i] in init;
        }
        assert RowsOf(txs, token) == r + [last];
      }
    }
  }

  /** A card's history (`ORDER BY id DESC`) lists its rows newest first:
      ids strictly decrease along it. */
  lemma TxsForNewestFirst(s: Store, token: string)
    requires Ordered(s)
    ensures forall i, j :: 0 <= i < j < |TxsFor(s, token)| ==> TxsFor(s, token)[i].id > TxsFor(s, token)[j].id
  {
    RowsOfAscending(s.txs, token);
  }
}
