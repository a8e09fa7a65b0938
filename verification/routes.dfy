/** The request handlers of the talent ledger, each a step from one store to
    the next together with the reply the client sees. Body fields arrive as
    optional strings (a missing field is `None`); the fields the handlers
    test with `Number.isInteger` arrive as `Some(n)` exactly when the client
    sent an integer. */
module Routes {
  import opened Base
  import opened Text
  import opened Numbers
  import opened Db
  import opened Audit
  import opened Identity
  import Bulk
  import Export

  /** What the client gets back. */
  datatype Reply =
    | Balance(balance: int)     // `{ ok: true, balance }`
    | Done                      // `{ ok: true }`, or the redirect after a form post
    | View(card: Card)          // a card page
    | File(text: string)        // the CSV download
    | LoggedIn(cookie: string)  // a login that sets a cookie
    | LoginFailed               // a login page with the error text
    | BadParams                 // 400 "bad params"
    | DeductOnly                // 400: booths may only deduct
    | BoothLoginRequired        // 401: no booth cookie
    | LoginRedirect             // checkLogin sends the browser to /login
    | AlreadyExists             // 400: the booth username is taken
    | ServerError               // an uncaught exception: 500

  datatype Outcome = Outcome(store: Store, reply: Reply)

  /** A body field JavaScript treats as true: present and not "". */
  predicate Given(x: Option<string>) {
    x.Some? && x.value != ""
  }

  /** `getCard.get(token).balance` after a write: the balance when the card
      exists; reading a field of `undefined` throws otherwise. */
  function ReadBack(s: Store, token: string): (o: Outcome)
    ensures o.store == s
    ensures o.reply.Balance? <==> token in s.cards
    ensures o.reply.Balance? ==> o.reply.balance == s.cards[token].balance
    ensures !o.reply.Balance? ==> o.reply == ServerError
  {
    match GetCard(s, token)
    case Some(c) => Outcome(s, Balance(c.balance))
    case None => Outcome(s, ServerError)
  }

  /** The shared tail of both apply routes: one ledger row, then the
      relative balance write, then the read-back. A token without a card
      still gets its row; only the read-back fails. */
  function Move(s: Store, token: string, delta: int, source: Source, reason: string,
                booth: string, at: string): (o: Outcome)
    ensures o.store.txs == s.txs + [Tx(s.nextId, token, delta, source, reason, booth, at)]
    ensures o.store.nextId == s.nextId + 1 && o.store.booths == s.booths
    ensures token in s.cards ==>
      && o.store.cards == s.cards[token := Card(s.cards[token].name, s.cards[token].balance + delta)]
      && o.reply == Balance(s.cards[token].balance + delta)
    ensures token !in s.cards ==> o.store.cards == s.cards && o.reply == ServerError
  {
    var s1 := InsertTx(s, token, delta, source, reason, booth, at);
    var s2 := UpdateBal(s1, delta, token);
    ReadBack(s2, token)
  }

  /** POST /api/booth-apply. The gates, in order: a token and an integer
      delta, then a negative delta, then a booth cookie. Each refusal leaves
      the store as it was. */
  function BoothApply(s: Store, cookie: string, token: Option<string>, delta: Option<int>,
                      reason: Option<string>, at: string): (o: Outcome)
    ensures !Given(token) || delta.None? ==> o == Outcome(s, BadParams)
    ensures Given(token) && delta.Some? && delta.value >= 0 ==> o == Outcome(s, DeductOnly)
    ensures Given(token) && delta.Some? && delta.value < 0 && GetBooth(cookie) == "" ==>
      o == Outcome(s, BoothLoginRequired)
    ensures Given(token) && delta.Some? && delta.value < 0 && GetBooth(cookie) != "" ==>
      o == Move(s, token.value, delta.value, FromBooth, OrEmpty(reason), GetBooth(cookie), at)
  {
    if !Given(token) || delta.None? then Outcome(s, BadParams)
    else if delta.value >= 0 then Outcome(s, DeductOnly)
    else
      var booth := GetBooth(cookie);
      if booth == "" then Outcome(s, BoothLoginRequired)
      else Move(s, token.value, delta.value, FromBooth, OrEmpty(reason), booth, at)
  }

  /** POST /api/admin-apply: any integer delta, source "admin", no booth. */
  function AdminApply(s: Store, token: Option<string>, delta: Option<int>,
                      reason: Option<string>, at: string): (o: Outcome)
    ensures !Given(token) || delta.None? ==> o == Outcome(s, BadParams)
    ensures Given(token) && delta.Some? ==>
      o == Move(s, token.value, delta.value, FromAdmin, OrEmpty(reason), "", at)
  {
    if !Given(token) || delta.None? then Outcome(s, BadParams)
    else Move(s, token.value, delta.value, FromAdmin, OrEmpty(reason), "", at)
  }

  /** The balance set-balance measures its delta from: the card's, or 0
      when there is no card (`?.balance ?? 0`). */
  function BalanceOr0(s: Store, token: string): (b: int)
    ensures token in s.cards ==> b == s.cards[token].balance
    ensures token !in s.cards ==> b == 0
  {
    match GetCard(s, token)
    case Some(c) => c.balance
    case None => 0
  }

  /** POST /api/admin-set-balance: logs the difference to the new value as
      an admin row with reason "set-balance", then writes the value. */
  function AdminSetBalance(s: Store, token: Option<string>, value: Option<int>, at: string): (o: Outcome)
    ensures !Given(token) || value.None? ==> o == Outcome(s, BadParams)
    ensures Given(token) && value.Some? ==>
      var t := token.value;
      && o.store.txs == s.txs + [Tx(s.nextId, t, value.value - BalanceOr0(s, t), FromAdmin, "set-balance", "", at)]
      && o.store.nextId == s.nextId + 1 && o.store.booths == s.booths
      && (t in s.cards ==> o.store.cards == s.cards[t := Card(s.cards[t].name, value.value)]
                           && o.reply == Balance(value.value))
      && (t !in s.cards ==> o.store.cards == s.cards && o.reply == ServerError)
  {
    if !Given(token) || value.None? then Outcome(s, BadParams)
    else
      var t := token.value;
      var delta := value.value - BalanceOr0(s, t);
      var s1 := InsertTx(s, t, delta, FromAdmin, "set-balance", "", at);
      var s2 := SetBal(s1, value.value, t);
      ReadBack(s2, t)
  }

  /** POST /api/label: renames the card, if it exists; a missing label
      clears the name. */
  function LabelRoute(s: Store, token: Option<string>, name: Option<string>): (o: Outcome)
    ensures !Given(token) ==> o == Outcome(s, BadParams)
    ensures Given(token) ==> o.reply == Done && o.store == SetLabel(s, OrEmpty(name), token.value)
  {
    if !Given(token) then Outcome(s, BadParams)
    else Outcome(SetLabel(s, OrEmpty(name), token.value), Done)
  }

  /** POST /card/bulk: the import, always answered with the redirect. */
  function BulkRoute(s: Store, bulk: Option<string>): (o: Outcome)
    ensures o.reply == Done
    ensures o.store.txs == s.txs && o.store.nextId == s.nextId && o.store.booths == s.booths
  {
    Outcome(Bulk.Import(s, OrEmpty(bulk)), Done)
  }

  /** `parseInt(balance, 10)` on a body field; a missing field reads as
      NaN. */
  function BodyInt(x: Option<string>): (r: Option<int>)
    ensures x.None? ==> r.None?
    ensures x.Some? ==> r == ParseInt(x.value)
  {
    match x
    case Some(v) => ParseInt(v)
    case None => None
  }

  /** POST /card/upsert: checks the token before trimming it, then
      overwrites the card under the trimmed token, with no ledger row. */
  function Upsert(s: Store, token: Option<string>, name: Option<string>, balance: Option<string>): (o: Outcome)
    ensures !Given(token) || BodyInt(balance).None? ==> o == Outcome(s, BadParams)
    ensures Given(token) && BodyInt(balance).Some? ==>
      && o.reply == Done
      && o.store.cards == s.cards[Trim(token.value) := Card(Trim(OrEmpty(name)), BodyInt(balance).value)]
      && o.store.txs == s.txs && o.store.nextId == s.nextId && o.store.booths == s.booths
  {
    var bal := BodyInt(balance);
    if !Given(token) || bal.None? then Outcome(s, BadParams)
    else Outcome(UpsertCard(s, Trim(token.value), Trim(OrEmpty(name)), bal.value), Done)
  }

  /** POST /card/delete: removes the card's rows, then the card; without a
      token nothing happens. Either way the reply is the redirect. */
  function DeleteRoute(s: Store, token: Option<string>): (o: Outcome)
    ensures o.reply == Done
    ensures !Given(token) ==> o.store == s
    ensures Given(token) ==>
      && o.store.cards.Keys == s.cards.Keys - {token.value}
      && (forall t :: t in o.store.cards ==> o.store.cards[t] == s.cards[t])
      && (forall x :: x in o.store.txs <==> x in s.txs && x.token != token.value)
      && o.store.nextId == s.nextId && o.store.booths == s.booths
  {
    if !Given(token) then Outcome(s, Done)
    else Outcome(DeleteCard(DeleteTx(s, token.value), token.value), Done)
  }

  /** POST /booth/create: all three fields required; username and label are
      trimmed, the password is stored as sent. */
  function BoothCreate(s: Store, username: Option<string>, name: Option<string>,
                       password: Option<string>): (o: Outcome)
    ensures o.store.cards == s.cards && o.store.txs == s.txs && o.store.nextId == s.nextId
    ensures !Given(username) || !Given(name) || !Given(password) ==> o == Outcome(s, BadParams)
    ensures Given(username) && Given(name) && Given(password) ==>
      var u := Trim(username.value);
      && (u in s.booths ==> o == Outcome(s, AlreadyExists))
      && (u !in s.booths ==>
            o == Outcome(s.(booths := s.booths[u := Booth(password.value, Trim(name.value))]), Done))
  {
    if !Given(username) || !Given(name) || !Given(password) then Outcome(s, BadParams)
    else
      match InsertBooth(s, Trim(username.value), password.value, Trim(name.value))
      case Some(s1) => Outcome(s1, Done)
      case None => Outcome(s, AlreadyExists)
  }

  /** POST /booth/update: label and password trimmed; an empty password
      keeps the stored one; an unknown username changes nothing. */
  function BoothUpdate(s: Store, username: Option<string>, name: Option<string>,
                       password: Option<string>): (o: Outcome)
    ensures o.store.cards == s.cards && o.store.txs == s.txs && o.store.nextId == s.nextId
    ensures !Given(username) ==> o == Outcome(s, BadParams)
    ensures Given(username) ==>
      o == Outcome(UpdateBoothInfo(s, Trim(OrEmpty(name)), Trim(OrEmpty(password)), Trim(username.value)), Done)
  {
    if !Given(username) then Outcome(s, BadParams)
    else Outcome(UpdateBoothInfo(s, Trim(OrEmpty(name)), Trim(OrEmpty(password)), Trim(username.value)), Done)
  }

  /** POST /booth/delete. */
  function BoothDelete(s: Store, username: Option<string>): (o: Outcome)
    ensures o.store.cards == s.cards && o.store.txs == s.txs && o.store.nextId == s.nextId
    ensures !Given(username) ==> o == Outcome(s, BadParams)
    ensures Given(username) ==>
      o.reply == Done && o.store == s.(booths := s.booths - {Trim(username.value)})
  {
    if !Given(username) then Outcome(s, BadParams)
    else Outcome(DeleteBoothUser(s, Trim(username.value)), Done)
  }

  /** The card pages (/c/:token, /b/:token, /cards/:token): the card is
      created on first sight and then shown. */
  function OpenCard(s: Store, token: string): (o: Outcome)
    ensures o.store == EnsureCard(s, token)
    ensures o.reply == View(if token in s.cards then s.cards[token] else NewCard)
  {
    var s1 := EnsureCard(s, token);
    Outcome(s1, View(s1.cards[token]))
  }

  /** The requests that change or reveal the ledger. */
  datatype Request =
    | CardPage(path: string)
    | PostLogin(password: Option<string>)
    | PostBoothLogin(username: Option<string>, password: Option<string>)
    | PostBoothApply(token: Option<string>, delta: Option<int>, reason: Option<string>)
    | AdminCardPage(path: string)
    | PostAdminApply(token: Option<string>, delta: Option<int>, reason: Option<string>)
    | PostSetBalance(token: Option<string>, value: Option<int>)
    | PostLabel(token: Option<string>, name: Option<string>)
    | PostBulk(bulk: Option<string>)
    | PostUpsert(token: Option<string>, name: Option<string>, balance: Option<string>)
    | PostCardDelete(token: Option<string>)
    | PostBoothCreate(username: Option<string>, name: Option<string>, password: Option<string>)
    | PostBoothUpdate(username: Option<string>, name: Option<string>, password: Option<string>)
    | PostBoothDelete(username: Option<string>)
    | DownloadTx

  /** The routes registered after `app.use(checkLogin)`. */
  predicate AdminOnly(req: Request) {
    !(req.CardPage? || req.PostLogin? || req.PostBoothLogin? || req.PostBoothApply?)
  }

  /** The routes that overwrite balances without a ledger row. */
  predicate Bypass(req: Request) {
    req.PostBulk? || req.PostUpsert?
  }

  /** The three routes that write ledger rows. */
  predicate LedgerRoute(req: Request) {
    req.PostBoothApply? || req.PostAdminApply? || req.PostSetBalance?
  }

  /** Each request to its handler, past the admin gate. Only the ledger
      routes add rows and advance the id counter, each appending at most one
      row with the next id and keeping the rows before it; only card delete
      removes rows, and it adds none; cards change only through the card
      routes. */
  function Dispatch(s: Store, cookie: string, adminPassword: string, req: Request, at: string): (o: Outcome)
    ensures o.store.txs == s.txs || LedgerRoute(req) || req.PostCardDelete?
    ensures o.store.nextId == s.nextId || LedgerRoute(req)
    ensures o.store.cards == s.cards || LedgerRoute(req) || req.CardPage? || req.AdminCardPage?
                                     || req.PostLabel? || req.PostBulk? || req.PostUpsert? || req.PostCardDelete?
    ensures LedgerRoute(req) ==>
      && |s.txs| <= |o.store.txs| <= |s.txs| + 1 && o.store.txs[..|s.txs|] == s.txs
      && (|o.store.txs| == |s.txs| ==> o.store.nextId == s.nextId)
      && (|o.store.txs| > |s.txs| ==> o.store.txs[|s.txs|].id == s.nextId && o.store.nextId == s.nextId + 1)
    ensures req.PostCardDelete? ==> forall x :: x in o.store.txs ==> x in s.txs
  {
    match req
    case CardPage(t) => OpenCard(s, t)
    case PostLogin(pw) =>
      (match AdminLogin(adminPassword, pw)
       case Some(c) => Outcome(s, LoggedIn(c))
       case None => Outcome(s, LoginFailed))
    case PostBoothLogin(u, pw) =>
      (match BoothLogin(s, OrEmpty(u), pw)
       case Some(c) => Outcome(s, LoggedIn(c))
       case None => Outcome(s, LoginFailed))
    case PostBoothApply(t, d, r) => BoothApply(s, cookie, t, d, r, at)
    case AdminCardPage(t) => OpenCard(s, t)
    case PostAdminApply(t, d, r) => AdminApply(s, t, d, r, at)
    case PostSetBalance(t, v) => AdminSetBalance(s, t, v, at)
    case PostLabel(t, n) => LabelRoute(s, t, n)
    case PostBulk(b) => BulkRoute(s, b)
    case PostUpsert(t, n, b) => Upsert(s, t, n, b)
    case PostCardDelete(t) => DeleteRoute(s, t)
    case PostBoothCreate(u, n, pw) => BoothCreate(s, u, n, pw)
    case PostBoothUpdate(u, n, pw) => BoothUpdate(s, u, n, pw)
    case PostBoothDelete(u) => BoothDelete(s, u)
    case DownloadTx => Outcome(s, File(Export.Csv(s)))
  }

  /** One request against the store. Admin routes without the `adm=1`
      cookie are redirected to the login page and change nothing; logins
      and the download never change the store. */
  function Handle(s: Store, cookie: string, adminPassword: string, req: Request, at: string): (o: Outcome)
    ensures AdminOnly(req) && !IsAdmin(cookie) ==> o == Outcome(s, LoginRedirect)
    ensures !AdminOnly(req) || IsAdmin(cookie) ==> o == Dispatch(s, cookie, adminPassword, req, at)
    ensures req.PostLogin? || req.PostBoothLogin? || req.DownloadTx? ==> o.store == s
  {
    if AdminOnly(req) && !IsAdmin(cookie) then Outcome(s, LoginRedirect)
    else Dispatch(s, cookie, adminPassword, req, at)
  }
}
