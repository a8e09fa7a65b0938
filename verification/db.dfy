/** The three tables of the talent ledger and the prepared statements the
    route handlers run against them. Every statement is a pure function from
    one store to the next; a statement that matches no row changes nothing,
    as an SQL UPDATE or DELETE with an empty WHERE match does. */
module Db {
  import opened Base

  /** A participant's account: display name (the `label` column) and cached
      balance. */
  datatype Card = Card(name: string, balance: int)

  /** Which role wrote a ledger row. */
  datatype Source = FromBooth | FromAdmin

  /** One row of the append-only ledger. `at` is the insertion time,
      supplied by the caller because the clock is outside the model. */
  datatype Tx = Tx(id: nat, token: string, delta: int, source: Source,
                   reason: string, booth: string, at: string)

  /** A booth operator account; the username is the key of `booths`. */
  datatype Booth = Booth(password: string, name: string)

  /** Cards keyed by token, the ledger in insertion (and so id) order, the
      next id AUTOINCREMENT hands out, and booths keyed by username. */
  datatype Store = Store(cards: map<string, Card>, txs: seq<Tx>, nextId: nat,
                         booths: map<string, Booth>)

  /** Column defaults of a freshly inserted card. */
  const NewCard := Card("", 0)

  /** A freshly created database; AUTOINCREMENT starts at 1. */
  const Empty := Store(map[], [], 1, map[])

  /** The name the `source` column stores. */
  function SourceName(src: Source): string {
    match src
    case FromBooth => "booth"
    case FromAdmin => "admin"
  }

  /** INSERT OR IGNORE INTO cards (token): an unseen token gets a card with
      the column defaults; a known one keeps its card. Nothing else moves. */
  function EnsureCard(s: Store, token: string): (r: Store)
    ensures token in r.cards
    ensures r.cards[token] == (if token in s.cards then s.cards[token] else NewCard)
    ensures r.cards.Keys == s.cards.Keys + {token}
    ensures forall t :: t in s.cards && t != token ==> r.cards[t] == s.cards[t]
    ensures r.txs == s.txs && r.nextId == s.nextId && r.booths == s.booths
  {
    if token in s.cards then s else s.(cards := s.cards[token := NewCard])
  }

  /** SELECT * FROM cards WHERE token=? */
  function GetCard(s: Store, token: string): (r: Option<Card>)
    ensures r.Some? <==> token in s.cards
    ensures r.Some? ==> r.value == s.cards[token]
  {
    if token in s.cards then Some(s.cards[token]) else None
  }

  /** Replaces the card of `token`, if there is one; the result of every
      single-row UPDATE on cards. */
  function UpdateCard(s: Store, token: string, c: Card): (r: Store)
    ensures r.cards.Keys == s.cards.Keys
    ensures token in s.cards ==> r.cards[token] == c
    ensures forall t :: t in s.cards && t != token ==> r.cards[t] == s.cards[t]
    ensures r.txs == s.txs && r.nextId == s.nextId && r.booths == s.booths
  {
    if token in s.cards then s.(cards := s.cards[token := c]) else s
  }

  /** UPDATE cards SET label=? WHERE token=? */
  function SetLabel(s: Store, name: string, token: string): (r: Store)
    ensures r.cards.Keys == s.cards.Keys
    ensures token in s.cards ==> r.cards[token] == Card(name, s.cards[token].balance)
    ensures forall t :: t in s.cards && t != token ==> r.cards[t] == s.cards[t]
    ensures r.txs == s.txs && r.nextId == s.nextId && r.booths == s.booths
  {
    if token in s.cards then UpdateCard(s, token, s.cards[token].(name := name)) else s
  }

  /** UPDATE cards SET balance=? WHERE token=? (absolute write). */
  function SetBal(s: Store, value: int, token: string): (r: Store)
    ensures r.cards.Keys == s.cards.Keys
    ensures token in s.cards ==> r.cards[token] == Card(s.cards[token].name, value)
    ensures forall t :: t in s.cards && t != token ==> r.cards[t] == s.cards[t]
    ensures r.txs == s.txs && r.nextId == s.nextId && r.booths == s.booths
  {
    if token in s.cards then UpdateCard(s, token, s.cards[token].(balance := value)) else s
  }

  /** UPDATE cards SET balance=balance+? WHERE token=? (relative write). */
  function UpdateBal(s: Store, delta: int, token: string): (r: Store)
    ensures r.cards.Keys == s.cards.Keys
    ensures token in s.cards ==>
      r.cards[token] == Card(s.cards[token].name, s.cards[token].balance + delta)
    ensures forall t :: t in s.cards && t != token ==> r.cards[t] == s.cards[t]
    ensures r.txs == s.txs && r.nextId == s.nextId && r.booths == s.booths
  {
    if token in s.cards then
      UpdateCard(s, token, s.cards[token].(balance := s.cards[token].balance + delta))
    else s
  }

  /** INSERT INTO transactions: appends one row carrying the next id. No
      foreign key ties `token` to a card, so the row goes in either way. */
  function InsertTx(s: Store, token: string, delta: int, source: Source,
                    reason: string, booth: string, at: string): (r: Store)
    ensures r.txs == s.txs + [Tx(s.nextId, token, delta, source, reason, booth, at)]
    ensures r.nextId == s.nextId + 1
    ensures r.cards == s.cards && r.booths == s.booths
  {
    s.(txs := s.txs + [Tx(s.nextId, token, delta, source, reason, booth, at)],
       nextId := s.nextId + 1)
  }

  /** The ledger rows that do not belong to `token`, in their order. */
  function Without(txs: seq<Tx>, token: string): (r: seq<Tx>)
    ensures |r| <= |txs|
    ensures forall x :: x in r <==> x in txs && x.token != token
  {
    if |txs| == 0 then []
    else
      var init := Without(txs[..|txs| - 1], token);
      var last := txs[|txs| - 1];
      assert txs == txs[..|txs| - 1] + [last];
      if last.token == token then init else init + [last]
  }

  /** The ledger rows of `token`, in their order. */
  function RowsOf(txs: seq<Tx>, token: string): (r: seq<Tx>)
    ensures |r| <= |txs|
    ensures forall x :: x in r <==> x in txs && x.token == token
  {
    if |txs| == 0 then []
    else
      var init := RowsOf(txs[..|txs| - 1], token);
      var last := txs[|txs| - 1];
      assert txs == txs[..|txs| - 1] + [last];
      if last.token == token then init + [last] else init
  }

  /** The rows in the opposite order. */
  function Reverse(xs: seq<Tx>): (r: seq<Tx>)
    ensures |r| == |xs|
    ensures forall i :: 0 <= i < |xs| ==> r[i] == xs[|xs| - 1 - i]
    ensures forall x :: x in r <==> x in xs
  {
    if |xs| == 0 then [] else [xs[|xs| - 1]] + Reverse(xs[..|xs| - 1])
  }

  /** SELECT ... FROM transactions WHERE card_token=? ORDER BY id DESC: the
      card's history, newest first. */
  function TxsFor(s: Store, token: string): (r: seq<Tx>)
    ensures forall x :: x in r <==> x in s.txs && x.token == token
  {
    Reverse(RowsOf(s.txs, token))
  }

  /** DELETE FROM transactions WHERE card_token=? */
  function DeleteTx(s: Store, token: string): (r: Store)
    ensures r.txs == Without(s.txs, token)
    ensures r.cards == s.cards && r.nextId == s.nextId && r.booths == s.booths
  {
    s.(txs := Without(s.txs, token))
  }

  /** DELETE FROM cards WHERE token=? */
  function DeleteCard(s: Store, token: string): (r: Store)
    ensures r.cards.Keys == s.cards.Keys - {token}
    ensures forall t :: t in r.cards ==> r.cards[t] == s.cards[t]
    ensures r.txs == s.txs && r.nextId == s.nextId && r.booths == s.booths
  {
    s.(cards := s.cards - {token})
  }

  /** INSERT INTO cards (token,label,balance) ... ON CONFLICT(token) DO UPDATE
      SET label, balance: creates or overwrites the card without touching
      the ledger. */
  function UpsertCard(s: Store, token: string, name: string, balance: int): (r: Store)
    ensures r.cards == s.cards[token := Card(name, balance)]
    ensures r.txs == s.txs && r.nextId == s.nextId && r.booths == s.booths
  {
    s.(cards := s.cards[token := Card(name, balance)])
  }

  /** SELECT * FROM booths WHERE username=? */
  function GetBoothByUser(s: Store, username: string): (r: Option<Booth>)
    ensures r.Some? <==> username in s.booths
    ensures r.Some? ==> r.value == s.booths[username]
  {
    if username in s.booths then Some(s.booths[username]) else None
  }

  /** INSERT INTO booths: the UNIQUE constraint on username makes a taken
      name fail (`None`) and leaves the store as it was. */
  function InsertBooth(s: Store, username: string, password: string, name: string): (r: Option<Store>)
    ensures r.None? <==> username in s.booths
    ensures r.Some? ==> r.value == s.(booths := s.booths[username := Booth(password, name)])
  {
    if username in s.booths then None
    else Some(s.(booths := s.booths[username := Booth(password, name)]))
  }

  /** UPDATE booths SET label=?, password=COALESCE(NULLIF(?, ''), password)
      WHERE username=?: an empty password keeps the stored one. */
  function UpdateBoothInfo(s: Store, name: string, password: string, username: string): (r: Store)
    ensures r.booths.Keys == s.booths.Keys
    ensures username in s.booths ==>
      r.booths[username] == Booth(if password == "" then s.booths[username].password else password, name)
    ensures forall u :: u in s.booths && u != username ==> r.booths[u] == s.booths[u]
    ensures r.cards == s.cards && r.txs == s.txs && r.nextId == s.nextId
  {
    if username in s.booths then
      var prev := s.booths[username];
      var pw := if password != "" then password else prev.password;
      s.(booths := s.booths[username := Booth(pw, name)])
    else s
  }

  /** DELETE FROM booths WHERE username=? */
  function DeleteBoothUser(s: Store, username: string): (r: Store)
    ensures r.booths == s.booths - {username}
    ensures r.cards == s.cards && r.txs == s.txs && r.nextId == s.nextId
  {
    s.(booths := s.booths - {username})
  }
}
